/** What decides the answers of the mailbox's operations, under every interleaving. */
module MailboxDecisions {
  import opened Words
  import opened Wrappers
  import opened Ingress
  import Drain
  import opened Mailbox
  import opened MailboxInvariant
  import opened MailboxTheorems

  /** An admitted acquire takes the drain exactly when one is pending, which is when one more post has been owed
      than drains were acquired; it reports nothing pending exactly when the signal is idle, and
      another consumer exactly when one holds the drain permit. */
  lemma {:induction false} AcquiresExactly<T>(capacity: nat, events: seq<Event<T>>, i: Id, c: Choice)
    requires var s := Run(New(capacity), events); i in s.acts && s.acts[i] == Consuming(ConsumerAcquire)
    ensures var s := Run(New(capacity), events);
            var b := Next(s, Step(i, c)).acts[i];
            && (b == Draining(DrainLoop(None)) <==> s.shared.signal.Pending?)
            && (b == Draining(DrainLoop(None)) <==> s.shared.history.obligations == s.shared.history.acquisitions + 1)
            && (b == Consuming(ConsumerRelease(NothingPending)) <==> s.shared.signal.Idle?)
            && (b == Consuming(ConsumerRelease(OtherConsumer)) <==> |Holders(s.acts, DrainPermit)| == 1)
            && (b.Draining? || b in {Consuming(ConsumerRelease(NothingPending)), Consuming(ConsumerRelease(OtherConsumer))})
  {
    RunKeepsInv(capacity, events);
    ActivityIsReady(Run(New(capacity), events), i);
  }

  /** The operation's answer, given or on its way, tells the host that a post is owed, or that its post failed;
      an enqueue with a poster is about to make the post itself. */
  predicate Obliges<T>(a: Activity<T>) {
    match a
    case Producing(ProducerPost) => true
    case Producing(ProducerRelease(o)) => o == Accepted(true) || o.PostFailed?
    case EnqueueDone(o) => o == Accepted(true) || o.PostFailed?
    case Draining(DrainOperation(after)) => after.AfterPending?
    case Draining(DrainRelease(after)) => after.AfterPending?
    case DrainDone(after) => after.AfterPending?
    case _ => false
  }

  function Obligers<T>(acts: map<Id, Activity<T>>): set<Id> {
    set i | i in acts && Obliges(acts[i])
  }

  lemma ObligersCount<T>(acts: map<Id, Activity<T>>, id: Id, a: Activity<T>)
    ensures |Obligers(acts[id := a])| == |Obligers(acts)| - One(id in acts && Obliges(acts[id])) + One(Obliges(a))
  {
    var before, after := Obligers(acts), Obligers(acts[id := a]);
    forall i | i != id
      ensures i in after <==> i in before
    {
    }
    SwapOne(before, after, id);
  }

  lemma FireObliges<T>(m: Shared<T>, me: Id, a: Activity<T>, c: Choice)
    requires Ready(m, a)
    ensures var (n, b) := Fire(m, me, a, c);
            n.history.obligations == m.history.obligations - One(Obliges(a)) + One(Obliges(b))
  {
  }

  /** On every run the obligations to post that have arisen are exactly the operations whose answer says so: no
      drain becomes necessary without one caller being told, and none is told twice. */
  lemma {:induction false} EachObligationIsAnswered<T>(capacity: nat, events: seq<Event<T>>)
    ensures var s := Run(New(capacity), events); s.shared.history.obligations == |Obligers(s.acts)|
    decreases |events|
  {
    if events != [] {
      var before := events[..|events| - 1];
      var s := Run(New(capacity), before);
      EachObligationIsAnswered(capacity, before);
      match events[|events| - 1]
      case Start(id, a) =>
        if id !in s.acts && a.Initial() {
          ObligersCount(s.acts, id, a);
        }
      case Step(id, c) =>
        if id in s.acts {
          RunKeepsInv(capacity, before);
          ActivityIsReady(s, id);
          FireObliges(s.shared, id, s.acts[id], c);
          ObligersCount(s.acts, id, Next(s, Step(id, c)).acts[id]);
        }
    }
  }

  /** A request obliges its caller exactly when it found the signal idle, and is coalesced otherwise; a caller with
      a poster then posts, and reports a failure exactly when the post failed. */
  lemma {:induction false} RequestsExactly<T>(capacity: nat, events: seq<Event<T>>, i: Id, c: Choice)
    requires var s := Run(New(capacity), events); i in s.acts && s.acts[i].Producing?
    ensures var s := Run(New(capacity), events);
            var p, b := s.acts[i].producer, Next(s, Step(i, c)).acts[i];
            && (p.ProducerRequest? && !s.shared.signal.Idle? ==> b == Producing(ProducerRelease(Accepted(false))))
            && (p.ProducerRequest? && s.shared.signal.Idle? ==>
                  b == Producing(if p.posting then ProducerPost else ProducerRelease(Accepted(true))))
            && (p.ProducerPost? ==> b == Producing(ProducerRelease(if c == Succeed then Accepted(true) else PostFailed)))
  {
    RunKeepsInv(capacity, events);
    ActivityIsReady(Run(New(capacity), events), i);
  }

  /** An admitted retry posts exactly when a drain is pending, and reports how the post ended. */
  lemma {:induction false} RetriesExactly<T>(capacity: nat, events: seq<Event<T>>, i: Id, c: Choice)
    requires var s := Run(New(capacity), events); i in s.acts && s.acts[i].Retrying?
    ensures var s := Run(New(capacity), events);
            var b := Next(s, Step(i, c)).acts[i];
            && (s.acts[i].retry.RetryReserve? ==>
                  (b == RetryDone(NotPosted) <==>
                   !s.shared.normals.phase.Open? || |Holders(s.acts, NormalPermit)| == RESERVATION_MASK))
            && (s.acts[i].retry.RetryCheck? ==>
                  (b == Retrying(RetryPost) <==> s.shared.signal.Pending?)
                  && (b == Retrying(RetryRelease(NotPosted)) <==> !s.shared.signal.Pending?))
            && (s.acts[i].retry.RetryPost? ==> b == Retrying(RetryRelease(if c == Succeed then Posted else RetryFailed)))
  {
    RunKeepsInv(capacity, events);
  }

  /** An answer given or on its way. */
  datatype Answer<T> =
    | ToEnqueue(outcome: EnqueueOutcome<T>)
    | ToRetry(retried: RetryOutcome)
    | ToAcquire(acquired: AcquireOutcome)
    | ToDrain(after: Drain.After)
    | ToClose(result: CloseResult)
    | ToClaim(refusal: ClaimError)
    | ToOwner(end: TerminalEnd)

  function Decided<T>(a: Activity<T>): Option<Answer<T>> {
    match a
    case Producing(ProducerRelease(o)) => Some(ToEnqueue(o))
    case EnqueueDone(o) => Some(ToEnqueue(o))
    case Retrying(RetryRelease(o)) => Some(ToRetry(o))
    case RetryDone(o) => Some(ToRetry(o))
    case Consuming(ConsumerRelease(o)) => Some(ToAcquire(o))
    case ConsumerDone(o) => Some(ToAcquire(o))
    case Draining(DrainOperation(after)) => Some(ToDrain(after))
    case Draining(DrainRelease(after)) => Some(ToDrain(after))
    case DrainDone(after) => Some(ToDrain(after))
    case CloserDone(r) => Some(ToClose(r))
    case ClaimRefused(e) => Some(ToClaim(e))
    case Owning(_, OwnerDrop(e)) => Some(ToOwner(Released(e)))
    case OwnerDone(end) => Some(ToOwner(end))
    case _ => None
  }

  lemma FireStandsBy<T>(m: Shared<T>, me: Id, a: Activity<T>, c: Choice)
    requires Ready(m, a) && Decided(a).Some?
    ensures Decided(Fire(m, me, a, c).1) == Decided(a)
  {
  }

  /** Once decided, an answer stands, whatever happens before it is given. */
  lemma {:induction false} AnswersStand<T>(s: State<T>, later: seq<Event<T>>, i: Id)
    requires Inv(s) && i in s.acts && Decided(s.acts[i]).Some?
    ensures var t := Run(s, later); Inv(t) && i in t.acts && Decided(t.acts[i]) == Decided(s.acts[i])
    decreases |later|
  {
    if later != [] {
      var before := later[..|later| - 1];
      AnswersStand(s, before, i);
      var t := Run(s, before);
      match later[|later| - 1]
      case Start(j, a) => StartKeepsInv(t, j, a);
      case Step(j, c) =>
        StepKeepsInv(t, j, c);
        ActivityIsReady(t, i);
        FireStandsBy(t.shared, i, t.acts[i], c);
    }
  }

  /** The accesses an operation has left at most, pops and lost exchanges aside. */
  function Left<T>(a: Activity<T>): nat {
    match a
    case Producing(p) =>
      (match p
       case ProducerReserve(_, _) => 5
       case ProducerPush(_, _, _) => 4
       case ProducerRequest(_) => 3
       case ProducerPost => 2
       case ProducerRelease(_) => 1)
    case Retrying(r) =>
      (match r
       case RetryReserve => 4
       case RetryCheck => 3
       case RetryPost => 2
       case RetryRelease(_) => 1)
    case Consuming(q) =>
      (match q
       case ConsumerReserve => 8
       case ConsumerAcquire => 7
       case ConsumerObserve(_) => 2
       case ConsumerObserveGate(_) => 1
       case ConsumerRelease(_) => 1)
    case Draining(d) =>
      (match d
       case DrainLoop(_) => 6
       case DrainCheck(_, _) => 5
       case DrainRequest(_, _) => 4
       case DrainFinish(_, _) => 3
       case DrainOperation(_) => 2
       case DrainRelease(_) => 1)
    case Claiming(k) =>
      (match k
       case CloserBegin => 1
       case ClaimSealProducers => 10
       case ClaimCloseNormals => 9
       case ClaimSealNormals => 8
       case ClaimCloseSignal => 7
       case ClaimLoad => 6
       case ClaimSwap => 5)
    case Owning(_, o) =>
      (match o
       case OwnerLoop => 4
       case OwnerCheck => 3
       case OwnerFinish => 2
       case OwnerDrop(_) => 1)
    case _ => 0
  }

  /** Its next access may leave it where it was: a drain or an owner not yet told to end, an exchange lost. */
  predicate MayLinger<T>(m: Shared<T>, a: Activity<T>, c: Choice) {
    || (a.Draining? && a.drain.DrainLoop? && c != Finish && c != Drop)
    || (a.Owning? && a.owner.OwnerLoop? && c != Finish && c != Drop)
    || (a == Claiming(ClaimSwap) && (c == Fail || m.terminal.Active? || m.terminal.Closed?))
  }

  /** No operation waits for another: each of its accesses brings it nearer its end, except a pop and an exchange
      that another claim or a spurious failure made it lose. */
  lemma OperationsEnd<T>(m: Shared<T>, me: Id, a: Activity<T>, c: Choice)
    requires Left(a) > 0 && !MayLinger(m, a, c)
    ensures Left(Fire(m, me, a, c).1) < Left(a)
  {
  }

  /** An access that asks for another drain while `drain` runs: a producer's request, or the drain's own check
      when it finds a payload it retains. */
  predicate Asks<T>(s: State<T>, e: Event<T>, drain: Id) {
    && e.Step? && e.id in s.acts
    && (|| (s.acts[e.id].Producing? && s.acts[e.id].producer.ProducerRequest?)
        || (e.id == drain && s.acts[drain].Draining? && s.acts[drain].drain.DrainCheck? && s.shared.queue != []))
  }

  predicate Asked<T>(s: State<T>, events: seq<Event<T>>, drain: Id)
    decreases |events|
  {
    events != [] &&
      var before := events[..|events| - 1];
      Asked(s, before, drain) || Asks(Run(s, before), events[|events| - 1], drain)
  }

  /** A drain that will find the signal pending when it ends. */
  predicate WillPend<T>(m: Shared<T>, a: Activity<T>) {
    m.signal.DrainingPending? || (a.Draining? && a.drain.DrainRequest?)
  }

  lemma FireAsks<T>(s: State<T>, e: Event<T>, drain: Id)
    requires Inv(s) && drain in s.acts && Holds(s.acts[drain], DrainPermit)
    requires Holds(Next(s, e).acts[drain], DrainPermit)
    ensures var t := Next(s, e);
            WillPend(t.shared, t.acts[drain]) <==> WillPend(s.shared, s.acts[drain]) || Asks(s, e, drain)
  {
    ActivityIsReady(s, drain);
    if e.Step? && e.id in s.acts && e.id != drain {
      ActivityIsReady(s, e.id);
      if Holds(s.acts[e.id], DrainPermit) {
        HolderIsCounted(s.acts, DrainPermit, drain);
        HolderIsCounted(s.acts, DrainPermit, e.id);
        OnlyHolder(s.acts, DrainPermit, drain, e.id);
      }
    }
  }

  predicate Drains<T>(a: Activity<T>) {
    a.Draining? || a.DrainDone?
  }

  lemma StaysDrain<T>(m: Shared<T>, me: Id, a: Activity<T>, c: Choice)
    requires Ready(m, a) && Drains(a)
    ensures var b := Fire(m, me, a, c).1; Drains(b) && (Holds(b, DrainPermit) ==> Holds(a, DrainPermit))
  {
    FireIsSafe(m, me, a, c);
  }

  /** From any state in which a drain holds its permit until one in which it still does. */
  lemma {:induction false} PendsWhenAsked<T>(s: State<T>, during: seq<Event<T>>, drain: Id)
    requires Inv(s) && drain in s.acts && Drains(s.acts[drain])
    ensures var t := Run(s, during);
            && Inv(t) && drain in t.acts && Drains(t.acts[drain])
            && (Holds(t.acts[drain], DrainPermit) ==>
                  && Holds(s.acts[drain], DrainPermit)
                  && (WillPend(t.shared, t.acts[drain]) <==> WillPend(s.shared, s.acts[drain]) || Asked(s, during, drain)))
    decreases |during|
  {
    if during != [] {
      var before, e := during[..|during| - 1], during[|during| - 1];
      PendsWhenAsked(s, before, drain);
      var t := Run(s, before);
      match e {
        case Start(i, a) => StartKeepsInv(t, i, a);
        case Step(i, c) =>
          StepKeepsInv(t, i, c);
          ActivityIsReady(t, drain);
          StaysDrain(t.shared, drain, t.acts[drain], c);
      }
      if Holds(Next(t, e).acts[drain], DrainPermit) {
        FireAsks(t, e, drain);
      }
    }
  }

  lemma EndDecides<T>(m: Shared<T>, me: Id, a: Activity<T>, d: Choice)
    requires a.Draining? && a.drain.DrainFinish? && m.signal.InDrain()
    ensures Decided(Fire(m, me, a, d).1) == Some(ToDrain(if WillPend(m, a) then Drain.AfterPending else Drain.AfterIdle))
  {
  }

  lemma AcquireStarts<T>(m: Shared<T>, me: Id, c: Choice)
    requires m.signal.Pending?
    ensures var (n, b) := Fire(m, me, Consuming(ConsumerAcquire), c); b == Draining(DrainLoop(None)) && n.signal == Drain.Draining
  {
  }

  /** Under every interleaving: a drain reports that another is pending if and only if, since it was acquired, a
      producer requested one or its own check found a payload to retain. Otherwise it reports idle. */
  lemma PendingWasAskedFor<T>(capacity: nat, events: seq<Event<T>>, drain: Id, c: Choice, during: seq<Event<T>>, d: Choice)
    requires var s := Run(New(capacity), events);
             && drain in s.acts && s.acts[drain] == Consuming(ConsumerAcquire) && s.shared.signal.Pending?
    requires var t := Run(Next(Run(New(capacity), events), Step(drain, c)), during);
             drain in t.acts && t.acts[drain].Draining? && t.acts[drain].drain.DrainFinish?
    ensures var acquired := Next(Run(New(capacity), events), Step(drain, c));
            var t := Run(acquired, during);
            Decided(Next(t, Step(drain, d)).acts[drain])
            == Some(ToDrain(if Asked(acquired, during, drain) then Drain.AfterPending else Drain.AfterIdle))
  {
    RunKeepsInv(capacity, events);
    var s := Run(New(capacity), events);
    StepKeepsInv(s, drain, c);
    AcquireStarts(s.shared, drain, c);
    var acquired := Next(s, Step(drain, c));
    PendsWhenAsked(acquired, during, drain);
    var t := Run(acquired, during);
    ActivityIsReady(t, drain);
    EndDecides(t.shared, drain, t.acts[drain], d);
  }
}
