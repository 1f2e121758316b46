/** The close-aware mailbox as a transition system.

  `Shared` is the memory every operation shares. An `Activity` is one operation in
  progress together with its position; any number of them interleave. One step of an
  activity is one deciding access: an atomic load, a compare-and-swap that takes
  effect, a `fetch_sub`, or a push, pop, emptiness or length test of the queue. A
  failed weak compare-and-swap changes nothing and is not a step of its own.
*/
module Mailbox {
  import opened Wrappers
  import opened Ingress
  import Drain
  import WorkQueue

  type Id = nat

  datatype Terminal = Normal | Pending | Active | Closed

  /** A queued payload, labelled with the activity that pushed it. */
  datatype Item<T> = Item(payload: T, producer: Id)

  /** What has happened so far; no operation reads it. */
  datatype History<T> = History(
    accepted: seq<Item<T>>,    // payloads pushed, in push order
    drained: seq<Item<T>>,     // payloads popped by normal drains
    recovered: seq<Item<T>>,   // payloads popped by terminal owners
    grants: nat,               // producer admissions granted
    leases: nat,               // normal drains that popped something
    claims: nat,               // terminal ownerships granted
    obligations: nat,          // times one more host post became necessary
    acquisitions: nat)         // normal drains acquired

  datatype Shared<T> = Shared(
    capacity: nat,
    queue: seq<Item<T>>,
    signal: Drain.Signal,
    producers: Gate,
    normals: Gate,
    terminal: Terminal,
    history: History<T>)

  datatype EnqueueOutcome<T> =
    | Accepted(scheduled: bool)
    | PostFailed
    | RejectedFull(payload: T)
    | RejectedClosed(payload: T)

  datatype RetryOutcome = NotPosted | Posted | RetryFailed

  datatype AcquireOutcome = NothingPending | OtherConsumer | Unavailable(state: WorkQueue.Lifecycle)

  datatype ClaimError =
    | ProducerCloseNotStarted
    | ProducerReservationsRemain(producers: nat)
    | NormalDrainReservationsRemain(drains: nat)
    | TerminalDrainActive
    | AlreadyClosed

  datatype FinishError = PayloadsRemain(count: nat) | Stale

  datatype TerminalEnd = Finished | Released(error: Option<FinishError>)

  /** The places where the source panics. */
  datatype Site =
    | ProducerSawClosedSignal
    | DrainScheduledItself
    | DrainSawClosedSignal
    | NormalGateStillOpen
    | PermitUnderflow

  // enqueue, enqueue_and_post
  datatype ProducerStep<T> =
    | ProducerReserve(payload: T, posting: bool)
    | ProducerPush(payload: T, posting: bool, ticket: nat)
    | ProducerRequest(posting: bool)
    | ProducerPost
    | ProducerRelease(outcome: EnqueueOutcome<T>)

  // post_pending_with
  datatype RetryStep =
    | RetryReserve
    | RetryCheck
    | RetryPost
    | RetryRelease(retried: RetryOutcome)

  // acquire
  datatype ConsumerStep =
    | ConsumerReserve
    | ConsumerObserve(saturated: bool)
    | ConsumerObserveGate(saturated: bool)
    | ConsumerAcquire
    | ConsumerRelease(acquired: AcquireOutcome)

  // a live ClosableMailboxDrain, its finish_with (`calls`) and its drop
  datatype DrainStep =
    | DrainLoop(lease: Option<nat>)
    | DrainCheck(lease: Option<nat>, calls: bool)
    | DrainRequest(lease: Option<nat>, calls: bool)
    | DrainFinish(lease: Option<nat>, calls: bool)
    | DrainOperation(after: Drain.After)
    | DrainRelease(after: Drain.After)

  // begin_close and try_begin_terminal_drain
  datatype ClaimStep =
    | CloserBegin
    | ClaimSealProducers
    | ClaimCloseNormals
    | ClaimSealNormals
    | ClaimCloseSignal
    | ClaimLoad
    | ClaimSwap

  // a live TerminalMailboxDrain, its finish and its drop
  datatype OwnerStep =
    | OwnerLoop
    | OwnerCheck
    | OwnerFinish
    | OwnerDrop(error: Option<FinishError>)

  datatype Activity<T> =
    | Producing(producer: ProducerStep<T>)
    | EnqueueDone(outcome: EnqueueOutcome<T>)
    | Retrying(retry: RetryStep)
    | RetryDone(retried: RetryOutcome)
    | Consuming(consumer: ConsumerStep)
    | ConsumerDone(acquired: AcquireOutcome)
    | Draining(drain: DrainStep)
    | DrainDone(after: Drain.After)
    | Claiming(claim: ClaimStep)
    | CloserDone(result: CloseResult)
    | ClaimRefused(refusal: ClaimError)
    | Owning(terminalLease: nat, owner: OwnerStep)
    | OwnerDone(end: TerminalEnd)
    | Panicked(site: Site)
  {
    /** Where an operation may begin. */
    predicate Initial() {
      match this
      case Producing(p) => p.ProducerReserve?
      case Retrying(r) => r.RetryReserve?
      case Consuming(q) => q.ConsumerReserve?
      case Claiming(k) => k.CloserBegin? || k.ClaimSealProducers?
      case _ => false
    }
  }

  /** What the environment of an operation decides: the next call on a drain, or how a callback ends. */
  datatype Choice = Pop | Finish | Drop | Succeed | Fail

  function EmptyHistory<T>(): History<T> {
    History([], [], [], 0, 0, 0, 0, 0)
  }

  function NewShared<T>(capacity: nat): Shared<T> {
    Shared(capacity, [], Drain.Idle, OPEN_GATE, OPEN_GATE, Normal, EmptyHistory())
  }

  /** `ClosableMailbox::state`: the terminal flag first, the producer gate only while it is normal. */
  function Lifecycle<T>(m: Shared<T>): WorkQueue.Lifecycle {
    match m.terminal
    case Pending => WorkQueue.TerminalPending
    case Active => WorkQueue.TerminalDraining
    case Closed => WorkQueue.Closed
    case Normal => if m.producers.phase.Open? then WorkQueue.Open else WorkQueue.Closing
  }

  function FireProducer<T>(m: Shared<T>, me: Id, p: ProducerStep<T>, c: Choice): (Shared<T>, Activity<T>) {
    match p
    case ProducerReserve(v, posting) =>
      (match m.producers.Reserve()
       case (Granted, g) =>
         var ticket := m.history.grants + 1;
         (m.(producers := g, history := m.history.(grants := ticket)), Producing(ProducerPush(v, posting, ticket)))
       case (_, _) => (m, EnqueueDone(RejectedClosed(v))))
    case ProducerPush(v, posting, _) =>
      if |m.queue| == m.capacity then (m, Producing(ProducerRelease(RejectedFull(v))))
      else
        (m.(queue := m.queue + [Item(v, me)],
            history := m.history.(accepted := m.history.accepted + [Item(v, me)])),
         Producing(ProducerRequest(posting)))
    case ProducerRequest(posting) =>
      (match m.signal.Request()
       case (Scheduled, s) =>
         (m.(signal := s, history := m.history.(obligations := m.history.obligations + 1)),
          Producing(if posting then ProducerPost else ProducerRelease(Accepted(true))))
       case (Coalesced, s) => (m.(signal := s), Producing(ProducerRelease(Accepted(false))))
       case (RequestClosed, _) => (m, Panicked(ProducerSawClosedSignal)))
    case ProducerPost =>
      (m, Producing(ProducerRelease(if c == Succeed then Accepted(true) else PostFailed)))
    case ProducerRelease(outcome) =>
      if m.producers.count == 0 then (m, Panicked(PermitUnderflow))
      else (m.(producers := m.producers.Settle()), EnqueueDone(outcome))
  }

  /** Gives a normal permit back. */
  function ReleaseNormal<T>(m: Shared<T>, a: Activity<T>): (Shared<T>, Activity<T>) {
    if m.normals.count == 0 then (m, Panicked(PermitUnderflow))
    else (m.(normals := m.normals.Settle()), a)
  }

  function FireRetry<T>(m: Shared<T>, r: RetryStep, c: Choice): (Shared<T>, Activity<T>) {
    match r
    case RetryReserve =>
      (match m.normals.Reserve()
       case (Granted, g) => (m.(normals := g), Retrying(RetryCheck))
       case (_, _) => (m, RetryDone(NotPosted)))
    case RetryCheck =>
      (m, Retrying(if m.signal == Drain.Pending then RetryPost else RetryRelease(NotPosted)))
    case RetryPost =>
      (m, Retrying(RetryRelease(if c == Succeed then Posted else RetryFailed)))
    case RetryRelease(outcome) => ReleaseNormal(m, RetryDone(outcome))
  }

  function FireConsumer<T>(m: Shared<T>, q: ConsumerStep): (Shared<T>, Activity<T>) {
    match q
    case ConsumerReserve =>
      (match m.normals.Reserve()
       case (Granted, g) => (m.(normals := g), Consuming(ConsumerAcquire))
       case (NotOpen(_), _) => (m, Consuming(ConsumerObserve(false)))
       case (ReservationSpaceExhausted, _) => (m, Consuming(ConsumerObserve(true))))
    case ConsumerObserve(saturated) =>
      (m, if m.terminal.Normal? then Consuming(ConsumerObserveGate(saturated))
          else ConsumerDone(Unavailable(Lifecycle(m))))
    case ConsumerObserveGate(_) =>
      (m, ConsumerDone(Unavailable(if m.producers.phase.Open? then WorkQueue.Open else WorkQueue.Closing)))
    case ConsumerAcquire =>
      (match m.signal.Acquire()
       case (AcquireIdle, _) => (m, Consuming(ConsumerRelease(NothingPending)))
       case (Busy, _) => (m, Consuming(ConsumerRelease(OtherConsumer)))
       case (AcquireClosed, _) => (m, Consuming(ConsumerRelease(Unavailable(Lifecycle(m)))))
       case (Acquired, s) =>
         (m.(signal := s, history := m.history.(acquisitions := m.history.acquisitions + 1)),
          Draining(DrainLoop(None))))
    case ConsumerRelease(outcome) => ReleaseNormal(m, ConsumerDone(outcome))
  }

  function FireDrain<T>(m: Shared<T>, d: DrainStep, c: Choice): (Shared<T>, Activity<T>) {
    match d
    case DrainLoop(lease) =>
      if c == Finish then (m, Draining(DrainCheck(lease, true)))
      else if c == Drop then (m, Draining(DrainCheck(lease, false)))
      else if c != Pop || m.queue == [] then (m, Draining(d))
      else
        var first := lease.None?;
        (m.(queue := m.queue[1..],
            history := m.history.(
              drained := m.history.drained + [m.queue[0]],
              leases := m.history.leases + if first then 1 else 0)),
         Draining(DrainLoop(if first then Some(m.history.leases + 1) else lease)))
    case DrainCheck(lease, calls) =>
      (m, Draining(if m.queue == [] then DrainFinish(lease, calls) else DrainRequest(lease, calls)))
    case DrainRequest(lease, calls) =>
      (match m.signal.Request()
       case (Scheduled, _) => (m, Panicked(DrainScheduledItself))
       case (Coalesced, s) => (m.(signal := s), Draining(DrainFinish(lease, calls)))
       case (RequestClosed, _) => (m, Panicked(DrainSawClosedSignal)))
    case DrainFinish(_, calls) =>
      var (after, s) := m.signal.Finish();
      (m.(signal := s,
          history := m.history.(obligations := m.history.obligations + if after.AfterPending? then 1 else 0)),
       Draining(if calls then DrainOperation(after) else DrainRelease(after)))
    case DrainOperation(after) => (m, Draining(DrainRelease(after)))
    case DrainRelease(after) => ReleaseNormal(m, DrainDone(after))
  }

  function FireClaim<T>(m: Shared<T>, k: ClaimStep, c: Choice): (Shared<T>, Activity<T>) {
    match k
    case CloserBegin =>
      var (r, g) := m.producers.BeginClose();
      (m.(producers := g), CloserDone(r))
    case ClaimSealProducers =>
      (match m.producers.TrySeal()
       case (SealedNow, g) => (m.(producers := g), Claiming(ClaimCloseNormals))
       case (StillOpen, _) => (m, ClaimRefused(ProducerCloseNotStarted))
       case (ReservationsRemain(n), _) => (m, ClaimRefused(ProducerReservationsRemain(n))))
    case ClaimCloseNormals =>
      (m.(normals := m.normals.BeginClose().1), Claiming(ClaimSealNormals))
    case ClaimSealNormals =>
      (match m.normals.TrySeal()
       case (SealedNow, g) => (m.(normals := g), Claiming(ClaimCloseSignal))
       case (StillOpen, _) => (m, Panicked(NormalGateStillOpen))
       case (ReservationsRemain(n), _) => (m, ClaimRefused(NormalDrainReservationsRemain(n))))
    case ClaimCloseSignal =>
      (m.(signal := m.signal.Close().1), Claiming(ClaimLoad))
    case ClaimLoad =>
      (m, match m.terminal
          case Normal => Claiming(ClaimSwap)
          case Pending => Claiming(ClaimSwap)
          case Active => ClaimRefused(TerminalDrainActive)
          case Closed => ClaimRefused(AlreadyClosed))
    case ClaimSwap =>
      if c == Fail || m.terminal.Active? || m.terminal.Closed? then (m, Claiming(ClaimLoad))
      else
        var lease := m.history.claims + 1;
        (m.(terminal := Active, history := m.history.(claims := lease)), Owning(lease, OwnerLoop))
  }

  function FireOwner<T>(m: Shared<T>, lease: nat, o: OwnerStep, c: Choice): (Shared<T>, Activity<T>) {
    match o
    case OwnerLoop =>
      if c == Finish then (m, Owning(lease, OwnerCheck))
      else if c == Drop then (m, Owning(lease, OwnerDrop(None)))
      else if c != Pop || m.queue == [] then (m, Owning(lease, OwnerLoop))
      else
        (m.(queue := m.queue[1..],
            history := m.history.(recovered := m.history.recovered + [m.queue[0]])),
         Owning(lease, OwnerLoop))
    case OwnerCheck =>
      (m, Owning(lease, if m.queue == [] then OwnerFinish else OwnerDrop(Some(PayloadsRemain(|m.queue|)))))
    case OwnerFinish =>
      if m.terminal.Active? then (m.(terminal := Closed), OwnerDone(Finished))
      else (m, Owning(lease, OwnerDrop(Some(Stale))))
    case OwnerDrop(error) =>
      (if m.terminal.Active? then m.(terminal := Pending) else m, OwnerDone(Released(error)))
  }

  /** One step of activity `me`, standing at `a`. A finished activity has no step. */
  function Fire<T>(m: Shared<T>, me: Id, a: Activity<T>, c: Choice): (Shared<T>, Activity<T>) {
    match a
    case Producing(p) => FireProducer(m, me, p, c)
    case Retrying(r) => FireRetry(m, r, c)
    case Consuming(q) => FireConsumer(m, q)
    case Draining(d) => FireDrain(m, d, c)
    case Claiming(k) => FireClaim(m, k, c)
    case Owning(lease, o) => FireOwner(m, lease, o, c)
    case _ => (m, a)
  }

  /** `offers` remembers what each enqueue was called with; no operation reads it. */
  datatype State<T> = State(shared: Shared<T>, acts: map<Id, Activity<T>>, offers: map<Id, T>)

  datatype Event<T> = Start(id: Id, activity: Activity<T>) | Step(id: Id, choice: Choice)

  function New<T>(capacity: nat): State<T> {
    State(NewShared(capacity), map[], map[])
  }

  /** An operation starts under an id of its own, or one in progress takes a step. */
  function Next<T>(s: State<T>, e: Event<T>): State<T> {
    match e
    case Start(id, a) =>
      if id in s.acts || !a.Initial() then s
      else s.(acts := s.acts[id := a], offers := if a.Producing? then s.offers[id := a.producer.payload] else s.offers)
    case Step(id, c) =>
      if id !in s.acts then s
      else
        var (m, a) := Fire(s.shared, id, s.acts[id], c);
        s.(shared := m, acts := s.acts[id := a])
  }

  function Run<T>(s: State<T>, events: seq<Event<T>>): State<T>
    decreases |events|
  {
    if events == [] then s
    else Next(Run(s, events[..|events| - 1]), events[|events| - 1])
  }
}
