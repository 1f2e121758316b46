/** What each operation of the mailbox answers when nothing interferes with it. */
module MailboxAnswers {
  import opened Words
  import opened Wrappers
  import opened Ingress
  import Drain
  import opened Mailbox
  import opened MailboxInvariant
  import opened MailboxTheorems

  /** Activity `i` takes `n` steps in a row, its environment deciding `c` each time. */
  function Alone<T>(i: Id, c: Choice, n: nat): seq<Event<T>> {
    if n == 0 then [] else [Step(i, c)] + Alone(i, c, n - 1)
  }

  /** The same on shared memory. */
  function Drive<T>(m: Shared<T>, me: Id, a: Activity<T>, c: Choice, n: nat): (Shared<T>, Activity<T>)
    decreases n
  {
    if n == 0 then (m, a)
    else
      var (k, b) := Fire(m, me, a, c);
      Drive(k, me, b, c, n - 1)
  }

  ghost predicate At<T>(s: State<T>, i: Id, m: Shared<T>, a: Activity<T>) {
    s.shared == m && i in s.acts && s.acts[i] == a
  }

  lemma StepIsFire<T>(s: State<T>, i: Id, m: Shared<T>, a: Activity<T>, c: Choice)
    requires At(s, i, m, a)
    ensures var (n, b) := Fire(m, i, a, c); At(Next(s, Step(i, c)), i, n, b)
  {
  }

  lemma OneFirst<T>(s: State<T>, e: Event<T>, events: seq<Event<T>>)
    ensures Run(s, [e] + events) == Run(Next(s, e), events)
  {
    RunAppends(s, [e], events);
    assert [e][..0] == [];
  }

  lemma {:induction false} RunsAsDriven<T>(s: State<T>, i: Id, m: Shared<T>, a: Activity<T>, c: Choice, n: nat)
    requires At(s, i, m, a)
    ensures var (p, b) := Drive(m, i, a, c, n); At(Run(s, Alone(i, c, n)), i, p, b)
    decreases n
  {
    if n > 0 {
      var (p, b) := Fire(m, i, a, c);
      OneFirst(s, Step(i, c), Alone(i, c, n - 1));
      StepIsFire(s, i, m, a, c);
      RunsAsDriven(Next(s, Step(i, c)), i, p, b, c, n - 1);
    }
  }

  lemma AloneIsDrive<T>(s: State<T>, i: Id, c: Choice, n: nat)
    requires i in s.acts
    ensures var t := Run(s, Alone(i, c, n));
            var (m, a) := Drive(s.shared, i, s.acts[i], c, n);
            t.shared == m && i in t.acts && t.acts[i] == a
  {
    RunsAsDriven(s, i, s.shared, s.acts[i], c, n);
  }

  /** One step, then the others. */
  lemma First<T>(m: Shared<T>, me: Id, a: Activity<T>, c: Choice, n: nat)
    ensures var (p, b) := Fire(m, me, a, c); Drive(m, me, a, c, n + 1) == Drive(p, me, b, c, n)
  {
  }

  predicate Returned<T>(a: Activity<T>) {
    a.EnqueueDone? || a.RetryDone? || a.ConsumerDone? || a.DrainDone? || a.CloserDone? || a.ClaimRefused? || a.OwnerDone?
  }

  lemma {:induction false} ReturnedStays<T>(m: Shared<T>, me: Id, a: Activity<T>, c: Choice, n: nat)
    requires Returned(a)
    ensures Drive(m, me, a, c, n) == (m, a)
  {
    if n > 0 {
      ReturnedStays(m, me, a, c, n - 1);
    }
  }

  predicate Admits(g: Gate) {
    g.phase.Open? && g.count < RESERVATION_MASK
  }

  function Rejects<T>(o: EnqueueOutcome<T>): bool {
    o.RejectedClosed? || o.RejectedFull?
  }

  /** What an enqueue that nothing interferes with answers. */
  function EnqueueAnswer<T>(m: Shared<T>, v: T, posting: bool, c: Choice): EnqueueOutcome<T> {
    if !Admits(m.producers) then RejectedClosed(v)
    else if |m.queue| == m.capacity then RejectedFull(v)
    else if !m.signal.Idle? then Accepted(false)
    else if posting && c != Succeed then PostFailed
    else Accepted(true)
  }

  lemma ReleaseDriven<T>(m: Shared<T>, me: Id, o: EnqueueOutcome<T>, c: Choice, n: nat)
    requires m.producers.count > 0 && n > 0
    ensures Drive(m, me, Producing(ProducerRelease(o)), c, n) == (m.(producers := m.producers.Settle()), EnqueueDone(o))
  {
    First(m, me, Producing(ProducerRelease(o)), c, n - 1);
    ReturnedStays(m.(producers := m.producers.Settle()), me, EnqueueDone(o), c, n - 1);
  }

  lemma RequestDriven<T>(m: Shared<T>, me: Id, posting: bool, c: Choice)
    requires m.producers.count > 0 && !m.signal.Closed?
    ensures var (n, a) := Drive(m, me, Producing(ProducerRequest(posting)), c, 3);
            && a == EnqueueDone(if !m.signal.Idle? then Accepted(false) else if posting && c != Succeed then PostFailed else Accepted(true))
            && (n.signal.Pending? || n.signal.DrainingPending?)
            && n == m.(producers := m.producers.Settle(), signal := n.signal, history := n.history)
  {
    var (p, b) := Fire(m, me, Producing(ProducerRequest(posting)), c);
    First(m, me, Producing(ProducerRequest(posting)), c, 2);
    if b.producer.ProducerPost? {
      First(p, me, b, c, 1);
      ReleaseDriven(p, me, Fire(p, me, b, c).1.producer.outcome, c, 1);
    } else {
      ReleaseDriven(p, me, b.producer.outcome, c, 2);
    }
  }

  lemma PushDriven<T>(m: Shared<T>, me: Id, v: T, posting: bool, ticket: nat, c: Choice)
    requires m.producers.count > 0 && !m.signal.Closed?
    ensures var (n, a) := Drive(m, me, Producing(ProducerPush(v, posting, ticket)), c, 4);
            && a == EnqueueDone(if |m.queue| == m.capacity then RejectedFull(v)
                                else if !m.signal.Idle? then Accepted(false)
                                else if posting && c != Succeed then PostFailed else Accepted(true))
            && n == m.(producers := m.producers.Settle(), queue := n.queue, signal := n.signal, history := n.history)
            && (if |m.queue| == m.capacity then n.queue == m.queue && n.signal == m.signal
                else n.queue == m.queue + [Item(v, me)] && (n.signal.Pending? || n.signal.DrainingPending?))
  {
    var (p, b) := Fire(m, me, Producing(ProducerPush(v, posting, ticket)), c);
    First(m, me, Producing(ProducerPush(v, posting, ticket)), c, 3);
    if |m.queue| == m.capacity {
      ReleaseDriven(p, me, RejectedFull(v), c, 3);
    } else {
      RequestDriven(p, me, posting, c);
    }
  }

  lemma EnqueueDriven<T>(m: Shared<T>, me: Id, v: T, posting: bool, c: Choice)
    requires Ordered(m)
    ensures var (n, a) := Drive(m, me, Producing(ProducerReserve(v, posting)), c, 5);
            var answer := EnqueueAnswer(m, v, posting, c);
            && a == EnqueueDone(answer)
            && n == m.(queue := n.queue, signal := n.signal, history := n.history)
            && (if Rejects(answer) then n.queue == m.queue && n.signal == m.signal
                else n.queue == m.queue + [Item(v, me)] && (n.signal.Pending? || n.signal.DrainingPending?))
  {
    var (p, b) := Fire(m, me, Producing(ProducerReserve(v, posting)), c);
    First(m, me, Producing(ProducerReserve(v, posting)), c, 4);
    if Admits(m.producers) {
      PushDriven(p, me, v, posting, b.producer.ticket, c);
    } else {
      ReturnedStays(p, me, b, c, 4);
    }
  }

  /** On every run, an enqueue that nothing interferes with answers Closed exactly when it is not admitted, then
      Full exactly when the queue is, each with its payload back and nothing changed. Otherwise its
      payload is last in the queue and a drain is pending, and the caller is told to post, or the
      given poster is run and its failure reported, exactly when the signal was idle. */
  lemma EnqueueAlone<T>(capacity: nat, events: seq<Event<T>>, i: Id, c: Choice)
    requires var s := Run(New(capacity), events);
             i in s.acts && s.acts[i].Producing? && s.acts[i].producer.ProducerReserve?
    ensures var s := Run(New(capacity), events);
            var v, posting := s.acts[i].producer.payload, s.acts[i].producer.posting;
            var t := Run(s, Alone(i, c, 5));
            var answer := EnqueueAnswer(s.shared, v, posting, c);
            && i in t.acts && t.acts[i] == EnqueueDone(answer)
            && t.shared == s.shared.(queue := t.shared.queue, signal := t.shared.signal, history := t.shared.history)
            && (if Rejects(answer) then t.shared.queue == s.shared.queue && t.shared.signal == s.shared.signal
                else
                  && t.shared.queue == s.shared.queue + [Item(v, i)]
                  && (t.shared.signal.Pending? || t.shared.signal.DrainingPending?))
  {
    RunKeepsInv(capacity, events);
    var s := Run(New(capacity), events);
    EnqueueDriven(s.shared, i, s.acts[i].producer.payload, s.acts[i].producer.posting, c);
    AloneIsDrive(s, i, c, 5);
  }

  lemma GiveBack<T>(m: Shared<T>, me: Id, a: Activity<T>, done: Activity<T>, c: Choice, n: nat)
    requires m.normals.count > 0 && n > 0 && Returned(done)
    requires Fire(m, me, a, c) == ReleaseNormal(m, done)
    ensures Drive(m, me, a, c, n) == (m.(normals := m.normals.Settle()), done)
  {
    First(m, me, a, c, n - 1);
    ReturnedStays(m.(normals := m.normals.Settle()), me, done, c, n - 1);
  }

  function RetryAnswer<T>(m: Shared<T>, c: Choice): RetryOutcome {
    if !Admits(m.normals) || !m.signal.Pending? then NotPosted
    else if c == Succeed then Posted
    else RetryFailed
  }

  lemma CheckDriven<T>(m: Shared<T>, me: Id, c: Choice)
    requires m.normals.count > 0
    ensures Drive(m, me, Retrying(RetryCheck), c, 3)
         == (m.(normals := m.normals.Settle()),
             RetryDone(if !m.signal.Pending? then NotPosted else if c == Succeed then Posted else RetryFailed))
  {
    First(m, me, Retrying(RetryCheck), c, 2);
    if m.signal.Pending? {
      var outcome := if c == Succeed then Posted else RetryFailed;
      First(m, me, Retrying(RetryPost), c, 1);
      GiveBack(m, me, Retrying(RetryRelease(outcome)), RetryDone(outcome), c, 1);
    } else {
      GiveBack(m, me, Retrying(RetryRelease(NotPosted)), RetryDone(NotPosted), c, 2);
    }
  }

  /** A retry posts exactly when a drain is pending and admission is open, and reports how the post ended;
      whatever it answers, it leaves shared memory as it was. */
  lemma RetryAlone<T>(capacity: nat, events: seq<Event<T>>, i: Id, c: Choice)
    requires var s := Run(New(capacity), events); i in s.acts && s.acts[i] == Retrying(RetryReserve)
    ensures var s := Run(New(capacity), events);
            var t := Run(s, Alone(i, c, 4));
            i in t.acts && t.acts[i] == RetryDone(RetryAnswer(s.shared, c)) && t.shared == s.shared
  {
    RunKeepsInv(capacity, events);
    var s := Run(New(capacity), events);
    var m := s.shared;
    First(m, i, Retrying(RetryReserve), c, 3);
    if Admits(m.normals) {
      CheckDriven(m.(normals := m.normals.(count := m.normals.count + 1)), i, c);
    } else {
      ReturnedStays(m, i, RetryDone(NotPosted), c, 3);
    }
    AloneIsDrive(s, i, c, 4);
  }

  /** What an acquire that nothing interferes with leads to. */
  function AcquireAnswer<T>(m: Shared<T>): Activity<T> {
    if !Admits(m.normals) then ConsumerDone(Unavailable(Lifecycle(m)))
    else if m.signal.Pending? then Draining(DrainLoop(None))
    else if m.signal.Idle? then ConsumerDone(NothingPending)
    else ConsumerDone(OtherConsumer)
  }

  lemma ObserveDriven<T>(m: Shared<T>, me: Id, saturated: bool, c: Choice)
    ensures Drive(m, me, Consuming(ConsumerObserve(saturated)), c, 2) == (m, ConsumerDone(Unavailable(Lifecycle(m))))
  {
    First(m, me, Consuming(ConsumerObserve(saturated)), c, 1);
    if m.terminal.Normal? {
      First(m, me, Consuming(ConsumerObserveGate(saturated)), c, 0);
    } else {
      ReturnedStays(m, me, ConsumerDone(Unavailable(Lifecycle(m))), c, 1);
    }
  }

  lemma AcquireDriven<T>(m: Shared<T>, me: Id)
    requires m.normals.count > 0 && !m.signal.Closed?
    ensures var (n, a) := Drive(m, me, Consuming(ConsumerAcquire), Succeed, 2);
            if m.signal.Pending? then
              a == Draining(DrainLoop(None)) && n == m.(signal := Drain.Draining, history := n.history)
            else
              && a == ConsumerDone(if m.signal.Idle? then NothingPending else OtherConsumer)
              && n == m.(normals := m.normals.Settle())
  {
    var (p, b) := Fire(m, me, Consuming(ConsumerAcquire), Succeed);
    First(m, me, Consuming(ConsumerAcquire), Succeed, 1);
    if m.signal.Pending? {
      First(p, me, b, Succeed, 0);
    } else {
      GiveBack(p, me, b, ConsumerDone(b.consumer.acquired), Succeed, 1);
    }
  }

  /** An acquire takes the drain exactly when one is pending, and otherwise says truly why not, leaving shared
      memory as it was. */
  lemma AcquireAlone<T>(capacity: nat, events: seq<Event<T>>, i: Id)
    requires var s := Run(New(capacity), events); i in s.acts && s.acts[i] == Consuming(ConsumerReserve)
    ensures var s := Run(New(capacity), events);
            var t := Run(s, Alone(i, Succeed, 3));
            && i in t.acts && t.acts[i] == AcquireAnswer(s.shared)
            && (if t.acts[i].Draining?
                then t.shared == s.shared.(signal := Drain.Draining, normals := t.shared.normals, history := t.shared.history)
                else t.shared == s.shared)
  {
    RunKeepsInv(capacity, events);
    var s := Run(New(capacity), events);
    var m := s.shared;
    First(m, i, Consuming(ConsumerReserve), Succeed, 2);
    if Admits(m.normals) {
      AcquireDriven(m.(normals := m.normals.(count := m.normals.count + 1)), i);
    } else {
      ObserveDriven(m, i, m.normals.phase.Open?, Succeed);
    }
    AloneIsDrive(s, i, Succeed, 3);
  }

  /** The completion of a drain that nothing interferes with. */
  function FinishAnswer<T>(m: Shared<T>): Drain.After {
    if m.queue != [] || m.signal.DrainingPending? then Drain.AfterPending else Drain.AfterIdle
  }

  function After(a: Drain.After): Drain.Signal {
    if a.AfterPending? then Drain.Pending else Drain.Idle
  }

  lemma EndDriven<T>(m: Shared<T>, me: Id, lease: Option<nat>, calls: bool, c: Choice, n: nat)
    requires m.normals.count > 0 && m.signal.InDrain() && n >= 3
    ensures var after := if m.signal.DrainingPending? then Drain.AfterPending else Drain.AfterIdle;
            var (p, a) := Drive(m, me, Draining(DrainFinish(lease, calls)), c, n);
            && a == DrainDone(after)
            && p == m.(signal := After(after), normals := m.normals.Settle(), history := p.history)
  {
    var (p, b) := Fire(m, me, Draining(DrainFinish(lease, calls)), c);
    First(m, me, Draining(DrainFinish(lease, calls)), c, n - 1);
    if calls {
      First(p, me, b, c, n - 2);
      GiveBack(p, me, Draining(DrainRelease(b.drain.after)), DrainDone(b.drain.after), c, n - 2);
    } else {
      GiveBack(p, me, b, DrainDone(b.drain.after), c, n - 1);
    }
  }

  lemma FinishDriven<T>(m: Shared<T>, me: Id, lease: Option<nat>, c: Choice)
    requires m.normals.count > 0 && m.signal.InDrain() && (c == Finish || c == Drop)
    ensures var (p, a) := Drive(m, me, Draining(DrainLoop(lease)), c, 6);
            && a == DrainDone(FinishAnswer(m))
            && p == m.(signal := After(FinishAnswer(m)), normals := m.normals.Settle(), history := p.history)
  {
    var calls := c == Finish;
    First(m, me, Draining(DrainLoop(lease)), c, 5);
    First(m, me, Draining(DrainCheck(lease, calls)), c, 4);
    if m.queue == [] {
      EndDriven(m, me, lease, calls, c, 4);
    } else {
      First(m, me, Draining(DrainRequest(lease, calls)), c, 3);
      EndDriven(m.(signal := Drain.DrainingPending), me, lease, calls, c, 3);
    }
  }

  /** On every run a drain that is finished, or dropped, with no step of another in between leaves the signal
      pending, and says so, exactly when it retained a payload or was asked to drain again; otherwise
      it leaves the signal idle. It gives back its admission and touches nothing else. */
  lemma FinishAlone<T>(capacity: nat, events: seq<Event<T>>, i: Id, c: Choice)
    requires c == Finish || c == Drop
    requires var s := Run(New(capacity), events);
             i in s.acts && s.acts[i].Draining? && s.acts[i].drain.DrainLoop?
    ensures var s := Run(New(capacity), events);
            var t := Run(s, Alone(i, c, 6));
            && i in t.acts && t.acts[i] == DrainDone(FinishAnswer(s.shared))
            && t.shared == s.shared.(signal := After(FinishAnswer(s.shared)),
                                     normals := t.shared.normals, history := t.shared.history)
            && t.shared.normals.count == s.shared.normals.count - 1
  {
    RunKeepsInv(capacity, events);
    var s := Run(New(capacity), events);
    ActivityIsReady(s, i);
    FinishDriven(s.shared, i, s.acts[i].drain.lease, c);
    AloneIsDrive(s, i, c, 6);
  }

  lemma CompletionDriven<T>(m: Shared<T>, me: Id, lease: Option<nat>, c: Choice)
    requires m.signal.InDrain() && (c == Finish || c == Drop)
    ensures var after := FinishAnswer(m);
            Drive(m, me, Draining(DrainLoop(lease)), c, if m.queue == [] then 3 else 4).1
            == Draining(if c == Finish then DrainOperation(after) else DrainRelease(after))
  {
    var calls := c == Finish;
    First(m, me, Draining(DrainLoop(lease)), c, if m.queue == [] then 2 else 3);
    First(m, me, Draining(DrainCheck(lease, calls)), c, if m.queue == [] then 1 else 2);
    if m.queue == [] {
      First(m, me, Draining(DrainFinish(lease, calls)), c, 0);
    } else {
      First(m, me, Draining(DrainRequest(lease, calls)), c, 1);
      First(m.(signal := Drain.DrainingPending), me, Draining(DrainFinish(lease, calls)), c, 0);
    }
  }

  /** On the way, once the signal is settled, a drain that is finished runs its caller's operation with that answer,
      still holding its admission; a dropped one has none to run. */
  lemma FinishRunsOperation<T>(capacity: nat, events: seq<Event<T>>, i: Id, c: Choice)
    requires c == Finish || c == Drop
    requires var s := Run(New(capacity), events);
             i in s.acts && s.acts[i].Draining? && s.acts[i].drain.DrainLoop?
    ensures var s := Run(New(capacity), events);
            var after := FinishAnswer(s.shared);
            var t := Run(s, Alone(i, c, if s.shared.queue == [] then 3 else 4));
            i in t.acts && t.acts[i] == Draining(if c == Finish then DrainOperation(after) else DrainRelease(after))
  {
    RunKeepsInv(capacity, events);
    var s := Run(New(capacity), events);
    ActivityIsReady(s, i);
    CompletionDriven(s.shared, i, s.acts[i].drain.lease, c);
    AloneIsDrive(s, i, c, if s.shared.queue == [] then 3 else 4);
  }

  function TerminalAnswer<T>(m: Shared<T>, c: Choice): TerminalEnd {
    if c == Drop then Released(None)
    else if m.queue == [] then Finished
    else Released(Some(PayloadsRemain(|m.queue|)))
  }

  lemma TerminalDriven<T>(m: Shared<T>, me: Id, lease: nat, c: Choice)
    requires m.terminal.Active? && (c == Finish || c == Drop)
    ensures Drive(m, me, Owning(lease, OwnerLoop), c, 3)
         == (m.(terminal := if TerminalAnswer(m, c).Finished? then Terminal.Closed else Terminal.Pending),
             OwnerDone(TerminalAnswer(m, c)))
  {
    First(m, me, Owning(lease, OwnerLoop), c, 2);
    if c == Drop {
      First(m, me, Owning(lease, OwnerDrop(None)), c, 1);
      ReturnedStays(m.(terminal := Terminal.Pending), me, OwnerDone(Released(None)), c, 1);
    } else {
      First(m, me, Owning(lease, OwnerCheck), c, 1);
      First(m, me, Owning(lease, if m.queue == [] then OwnerFinish else OwnerDrop(Some(PayloadsRemain(|m.queue|)))), c, 0);
    }
  }

  /** A terminal owner that finishes closes the mailbox exactly when the queue is empty; otherwise it is told how
      much remains, and the mailbox waits for another owner, as it does when the owner is dropped. */
  lemma TerminalFinishAlone<T>(capacity: nat, events: seq<Event<T>>, i: Id, c: Choice)
    requires c == Finish || c == Drop
    requires var s := Run(New(capacity), events);
             i in s.acts && s.acts[i].Owning? && s.acts[i].owner.OwnerLoop?
    ensures var s := Run(New(capacity), events);
            var t := Run(s, Alone(i, c, 3));
            && i in t.acts && t.acts[i] == OwnerDone(TerminalAnswer(s.shared, c))
            && t.shared == s.shared.(terminal := if c == Finish && s.shared.queue == [] then Terminal.Closed else Terminal.Pending)
  {
    RunKeepsInv(capacity, events);
    var s := Run(New(capacity), events);
    ActivityIsReady(s, i);
    TerminalDriven(s.shared, i, s.acts[i].terminalLease, c);
    AloneIsDrive(s, i, c, 3);
  }

  /** A close is answered by the phase it found, with the exact number of enqueues in progress. */
  lemma CloseReportsPermits<T>(capacity: nat, events: seq<Event<T>>, i: Id, c: Choice)
    requires var s := Run(New(capacity), events); i in s.acts && s.acts[i] == Claiming(CloserBegin)
    ensures var s := Run(New(capacity), events);
            var t := Next(s, Step(i, c));
            var permits := |Holders(s.acts, ProducerPermit)|;
            && i in t.acts
            && (t.acts[i] == CloserDone(Started(permits)) <==> s.shared.producers.phase.Open?)
            && (t.acts[i] == CloserDone(AlreadyClosing(permits)) <==> s.shared.producers.phase.Closing?)
            && (t.acts[i] == CloserDone(AlreadySealed) <==> s.shared.producers.phase.Sealed?)
            && !t.shared.producers.phase.Open? && t.shared.producers.count == s.shared.producers.count
            && t.shared == s.shared.(producers := t.shared.producers)
  {
    RunKeepsInv(capacity, events);
  }
}
