/** Runs that reach the corners of the protocol: a full permit field, a claim refused for a live normal
  permit, and more admissions than the reference has ids for.
*/
module MailboxRuns {
  import opened Words
  import opened Wrappers
  import opened Ingress
  import Drain
  import WorkQueue
  import opened Mailbox
  import MailboxRefinement

  lemma {:induction false} OneMore<T>(capacity: nat, events: seq<Event<T>>, e: Event<T>)
    ensures Run(New(capacity), events + [e]) == Next(Run(New(capacity), events), e)
  {
    assert (events + [e])[..|events|] == events;
  }

  /** `n` enqueues, each admitted and not yet past its push. */
  function Admitted<T>(v: T, n: nat): seq<Event<T>> {
    if n == 0 then []
    else Admitted(v, n - 1) + [Start(n - 1, Producing(ProducerReserve(v, false)))] + [Step(n - 1, Succeed)]
  }

  /** Every count the permit field can hold is reached by a run. */
  lemma {:induction false} AdmissionsFillTheField<T>(capacity: nat, v: T, n: nat)
    requires n <= RESERVATION_MASK
    ensures var s := Run(New(capacity), Admitted(v, n));
            && s.shared == NewShared(capacity).(producers := Gate(Open, n), history := EmptyHistory().(grants := n))
            && (forall i :: i in s.acts ==> i < n)
  {
    if n > 0 {
      var before := Admitted(v, n - 1);
      var start: Event<T> := Start(n - 1, Producing(ProducerReserve(v, false)));
      AdmissionsFillTheField(capacity, v, n - 1);
      OneMore(capacity, before, start);
      OneMore(capacity, before + [start], Step(n - 1, Succeed));
    }
  }

  /** So a run fills it, and the next enqueue is answered Closed by a mailbox that is open. */
  lemma SaturationLooksClosed<T>(capacity: nat, v: T, w: T, me: Id, posting: bool, c: Choice)
    ensures var m := Run(New(capacity), Admitted(v, RESERVATION_MASK)).shared;
            && Lifecycle(m) == WorkQueue.Open
            && Fire(m, me, Producing(ProducerReserve(w, posting)), c) == (m, EnqueueDone(RejectedClosed(w)))
  {
    AdmissionsFillTheField(capacity, v, RESERVATION_MASK);
  }

  /** A consumer holds its permit, and the producers have been told to close. */
  function Held<T>(): seq<Event<T>> {
    [Start(0, Consuming(ConsumerReserve))] + [Step(0, Succeed)] + [Start(1, Claiming(CloserBegin))] + [Step(1, Succeed)]
  }

  lemma PermitIsHeld<T>(capacity: nat)
    ensures var s := Run(New<T>(capacity), Held());
            && s.shared == NewShared(capacity).(normals := Gate(Open, 1), producers := Gate(Phase.Closing, 0))
            && s.acts.Keys == {0, 1} && s.acts[0] == Consuming(ConsumerAcquire)
  {
    var e: seq<Event<T>> := [];
    OneMore(capacity, e, Start(0, Consuming(ConsumerReserve)));
    var e1: seq<Event<T>> := [Start(0, Consuming(ConsumerReserve))];
    assert e + e1 == e1;
    OneMore(capacity, e1, Step(0, Succeed));
    var e2 := e1 + [Step(0, Succeed)];
    assert Run(New<T>(capacity), e2) == State(NewShared(capacity).(normals := Gate(Open, 1)), map[0 := Consuming(ConsumerAcquire)], map[]);
    OneMore(capacity, e2, Start(1, Claiming(CloserBegin)));
    OneMore(capacity, e2 + [Start(1, Claiming(CloserBegin))], Step(1, Succeed));
  }

  /** A claim then seals the producers and meets the permit. */
  function Refused<T>(): seq<Event<T>> {
    Held<T>() + [Start(2, Claiming(ClaimSealProducers))] + [Step(2, Succeed)] + [Step(2, Succeed)] + [Step(2, Succeed)]
  }

  /** For every capacity some run refuses a claim for a live normal permit. */
  lemma ClaimCanBeRefused<T>(capacity: nat)
    ensures var s := Run(New<T>(capacity), Refused());
            && 0 in s.acts && s.acts[0] == Consuming(ConsumerAcquire)
            && 2 in s.acts && s.acts[2] == ClaimRefused(NormalDrainReservationsRemain(1))
            && s.shared.normals == Gate(Phase.Closing, 1) && s.shared.terminal.Normal?
  {
    var e := Held<T>();
    PermitIsHeld<T>(capacity);
    OneMore(capacity, e, Start(2, Claiming(ClaimSealProducers)));
    OneMore(capacity, e + [Start(2, Claiming(ClaimSealProducers))], Step(2, Succeed));
    var e6 := e + [Start(2, Claiming(ClaimSealProducers))] + [Step(2, Succeed)];
    assert Run(New<T>(capacity), e6).acts[2] == Claiming(ClaimCloseNormals);
    OneMore(capacity, e6, Step(2, Succeed));
    OneMore(capacity, e6 + [Step(2, Succeed)], Step(2, Succeed));
  }

  /** One payload is accepted and fills a mailbox of capacity one; then `n` enqueues are admitted, find
    the queue full and leave. */
  function Rejected<T>(v: T, n: nat): seq<Event<T>> {
    if n == 0 then
      [Start(0, Producing(ProducerReserve(v, false)))] + [Step(0, Succeed)] + [Step(0, Succeed)] + [Step(0, Succeed)] + [Step(0, Succeed)]
    else
      Rejected(v, n - 1) + [Start(n, Producing(ProducerReserve(v, false)))] + [Step(n, Succeed)] + [Step(n, Succeed)] + [Step(n, Succeed)]
  }

  function FullShared<T>(v: T, n: nat): Shared<T> {
    NewShared(1).(queue := [Item(v, 0)], signal := Drain.Pending,
                  history := EmptyHistory().(accepted := [Item(v, 0)], grants := n + 1, obligations := 1))
  }

  function FourMore<T>(s: State<T>, first: Event<T>, step: Event<T>): State<T> {
    Next(Next(Next(Next(s, first), step), step), step)
  }

  lemma {:induction false} RunsFourMore<T>(capacity: nat, events: seq<Event<T>>, first: Event<T>, step: Event<T>)
    ensures Run(New(capacity), events + [first] + [step] + [step] + [step]) == FourMore(Run(New(capacity), events), first, step)
  {
    OneMore(capacity, events, first);
    OneMore(capacity, events + [first], step);
    OneMore(capacity, events + [first] + [step], step);
    OneMore(capacity, events + [first] + [step] + [step], step);
  }

  lemma AcceptedBySteps<T>(v: T)
    ensures var s := FourMore(New<T>(1), Start(0, Producing(ProducerReserve(v, false))), Step(0, Succeed));
            Next(s, Step(0, Succeed)).shared == FullShared(v, 0) && Next(s, Step(0, Succeed)).acts.Keys == {0}
  {
    var s2 := Next(Next(New<T>(1), Start(0, Producing(ProducerReserve(v, false)))), Step(0, Succeed));
    assert s2.acts == map[0 := Producing(ProducerPush(v, false, 1))];
    var s3 := Next(s2, Step(0, Succeed));
    assert s3.shared.queue == [Item(v, 0)] && s3.acts == map[0 := Producing(ProducerRequest(false))];
  }

  lemma FirstIsAccepted<T>(v: T)
    ensures var s := Run(New(1), Rejected(v, 0));
            s.shared == FullShared(v, 0) && s.acts.Keys == {0}
  {
    var e: seq<Event<T>> := [];
    var e1: seq<Event<T>> := [Start(0, Producing(ProducerReserve(v, false)))];
    assert e + e1 == e1;
    RunsFourMore(1, e, Start(0, Producing(ProducerReserve(v, false))), Step(0, Succeed));
    OneMore(1, e1 + [Step(0, Succeed)] + [Step(0, Succeed)] + [Step(0, Succeed)], Step(0, Succeed));
    AcceptedBySteps(v);
  }

  lemma RejectedBySteps<T>(s: State<T>, v: T, n: nat)
    requires s.shared == FullShared(v, n) && n + 1 !in s.acts
    ensures var t := FourMore(s, Start(n + 1, Producing(ProducerReserve(v, false))), Step(n + 1, Succeed));
            t.shared == FullShared(v, n + 1) && t.acts.Keys == s.acts.Keys + {n + 1}
  {
    var s2 := Next(Next(s, Start(n + 1, Producing(ProducerReserve(v, false)))), Step(n + 1, Succeed));
    assert s2.acts[n + 1] == Producing(ProducerPush(v, false, n + 2));
    var s3 := Next(s2, Step(n + 1, Succeed));
    assert s3.shared == s2.shared && s3.acts[n + 1] == Producing(ProducerRelease(RejectedFull(v)));
  }

  lemma {:induction false} OneMoreRejection<T>(events: seq<Event<T>>, v: T, n: nat)
    requires var s := Run(New(1), events); s.shared == FullShared(v, n) && n + 1 !in s.acts
    ensures var s := Run(New(1), events);
            var t := Run(New(1), events + [Start(n + 1, Producing(ProducerReserve(v, false)))] + [Step(n + 1, Succeed)] + [Step(n + 1, Succeed)] + [Step(n + 1, Succeed)]);
            t.shared == FullShared(v, n + 1) && t.acts.Keys == s.acts.Keys + {n + 1}
  {
    RunsFourMore(1, events, Start(n + 1, Producing(ProducerReserve(v, false))), Step(n + 1, Succeed));
    RejectedBySteps(Run(New(1), events), v, n);
  }

  lemma {:induction false} RejectionsAreGranted<T>(v: T, n: nat)
    ensures var s := Run(New(1), Rejected(v, n));
            s.shared == FullShared(v, n) && (forall i :: i in s.acts ==> i <= n)
  {
    if n == 0 {
      FirstIsAccepted(v);
    } else {
      RejectionsAreGranted(v, n - 1);
      OneMoreRejection(Rejected(v, n - 1), v, n - 1);
    }
  }

  /** Some run has granted more admissions than the reference has ids for, and so no run of the reference
    matches it. */
  lemma RunsOutliveTheReference<T>(v: T)
    ensures var events := Rejected(v, U64_MAX);
            && Run(New(1), events).shared.history.grants == U64_MAX + 1
            && !exists calls :: MailboxRefinement.Matches(1, events, calls)
  {
    RejectionsAreGranted(v, U64_MAX);
    MailboxRefinement.RefinesExactlyWithinIds(1, Rejected(v, U64_MAX));
  }
}
