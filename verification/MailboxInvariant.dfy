/** What every reachable mailbox state satisfies. */
module MailboxInvariant {
  import opened Words
  import opened Wrappers
  import opened Ingress
  import opened Mailbox

  /** The affine tokens of the protocol. */
  datatype Resource = ProducerPermit | NormalPermit | DrainPermit | TerminalLease

  predicate Holds<T>(a: Activity<T>, r: Resource) {
    match r
    case ProducerPermit => a.Producing? && !a.producer.ProducerReserve?
    case NormalPermit =>
      || (a.Retrying? && !a.retry.RetryReserve?)
      || (a.Consuming? && (a.consumer.ConsumerAcquire? || a.consumer.ConsumerRelease?))
      || a.Draining?
    case DrainPermit => a.Draining? && !a.drain.DrainOperation? && !a.drain.DrainRelease?
    case TerminalLease => a.Owning?
  }

  function Holders<T>(acts: map<Id, Activity<T>>, r: Resource): set<Id> {
    set i | i in acts && Holds(acts[i], r)
  }

  lemma SwapOne(before: set<Id>, after: set<Id>, id: Id)
    requires after - {id} == before - {id}
    ensures |after| == |before| - One(id in before) + One(id in after)
  {
    assert id in after ==> after == (after - {id}) + {id};
    assert id !in after ==> after == after - {id};
    assert id in before ==> before == (before - {id}) + {id};
    assert id !in before ==> before == before - {id};
  }

  lemma HoldersCount<T>(acts: map<Id, Activity<T>>, id: Id, a: Activity<T>, r: Resource)
    ensures |Holders(acts[id := a], r)|
         == |Holders(acts, r)| - One(id in acts && Holds(acts[id], r)) + One(Holds(a, r))
  {
    var before, after := Holders(acts, r), Holders(acts[id := a], r);
    forall i | i != id
      ensures i in after <==> i in before
    {
    }
    SwapOne(before, after, id);
  }

  lemma OnlyHolder<T>(acts: map<Id, Activity<T>>, r: Resource, i: Id, j: Id)
    requires |Holders(acts, r)| <= 1
    requires i in Holders(acts, r) && j in Holders(acts, r)
    ensures i == j
  {
    var rest := Holders(acts, r) - {i};
    assert Holders(acts, r) == rest + {i};
    assert rest == {};
  }

  /** Closing happens in one order: producers seal, then normal drains, then the signal, then the owner. */
  predicate Ordered<T>(m: Shared<T>) {
    && m.producers.Valid() && m.normals.Valid()
    && (!m.normals.phase.Open? ==> m.producers.phase.Sealed?)
    && (m.signal.Closed? ==> m.normals.phase.Sealed?)
    && (!m.terminal.Normal? ==> m.signal.Closed?)
    && |m.queue| <= m.capacity
  }

  /** What an activity knows about shared memory; all of it is stable under every step of the others. */
  predicate Placed<T>(m: Shared<T>, a: Activity<T>) {
    match a
    case Consuming(ConsumerObserve(saturated)) => saturated || !m.normals.phase.Open?
    case Consuming(ConsumerObserveGate(saturated)) => saturated || !m.normals.phase.Open?
    case Draining(DrainOperation(after)) => !after.AfterClosed?
    case Draining(DrainRelease(after)) => !after.AfterClosed?
    case DrainDone(after) => !after.AfterClosed?
    case Claiming(k) => ClaimPlaced(m, k)
    case ClaimRefused(e) => RefusalPlaced(m, e)
    case Owning(_, OwnerDrop(error)) => error != Some(Stale)
    case OwnerDone(end) => end != Released(Some(Stale)) && !m.terminal.Normal?
    case Panicked(_) => false
    case _ => true
  }

  predicate ClaimPlaced<T>(m: Shared<T>, k: ClaimStep) {
    && (k.ClaimCloseNormals? ==> m.producers.phase.Sealed?)
    && (k.ClaimSealNormals? ==> !m.normals.phase.Open?)
    && (k.ClaimCloseSignal? ==> m.normals.phase.Sealed?)
    && (k.ClaimLoad? || k.ClaimSwap? ==> m.signal.Closed?)
  }

  predicate RefusalPlaced<T>(m: Shared<T>, e: ClaimError) {
    && (e.NormalDrainReservationsRemain? ==> e.drains > 0 && !m.normals.phase.Open?)
    && (e.ProducerReservationsRemain? ==> e.producers > 0 && !m.producers.phase.Open?)
    && (e.TerminalDrainActive? || e.AlreadyClosed? ==> !m.terminal.Normal?)
  }

  /** Phases only advance, and a gate that is no longer open grants no new permit. */
  predicate GateForward(before: Gate, after: Gate) {
    && Advances(before, after)
    && (!before.phase.Open? ==> after.count <= before.count)
  }

  /** Shared memory only moves forward. */
  predicate Forward<T>(m: Shared<T>, n: Shared<T>) {
    && GateForward(m.producers, n.producers)
    && GateForward(m.normals, n.normals)
    && (m.signal.Closed? ==> n.signal.Closed?)
    && (!m.terminal.Normal? ==> !n.terminal.Normal?)
    && (m.terminal.Closed? ==> n.terminal.Closed?)
    && n.capacity == m.capacity
  }

  lemma PlacedIsStable<T>(m: Shared<T>, n: Shared<T>, a: Activity<T>)
    requires Placed(m, a) && Forward(m, n)
    ensures Placed(n, a)
  {
  }

  /** What holding tokens tells an activity about shared memory. */
  predicate Backed<T>(m: Shared<T>, a: Activity<T>) {
    && (Holds(a, ProducerPermit) ==> m.producers.count > 0)
    && (Holds(a, NormalPermit) ==> m.normals.count > 0)
    && (Holds(a, DrainPermit) ==> m.signal.InDrain())
    && (Holds(a, TerminalLease) ==> m.terminal.Active?)
    && (m.signal.InDrain() ==> m.normals.count > 0)
  }

  /** One step keeps the order of closing and trades tokens exactly for counts. */
  predicate SafeStep<T>(m: Shared<T>, a: Activity<T>, n: Shared<T>, b: Activity<T>) {
    && Ordered(n) && Placed(n, b) && Forward(m, n)
    && Trades(m, a, n, b)
  }

  predicate Trades<T>(m: Shared<T>, a: Activity<T>, n: Shared<T>, b: Activity<T>) {
    && n.producers.count == m.producers.count - One(Holds(a, ProducerPermit)) + One(Holds(b, ProducerPermit))
    && n.normals.count == m.normals.count - One(Holds(a, NormalPermit)) + One(Holds(b, NormalPermit))
    && One(n.signal.InDrain()) == One(m.signal.InDrain()) - One(Holds(a, DrainPermit)) + One(Holds(b, DrainPermit))
    && One(n.terminal.Active?) == One(m.terminal.Active?) - One(Holds(a, TerminalLease)) + One(Holds(b, TerminalLease))
  }

  predicate Ready<T>(m: Shared<T>, a: Activity<T>) {
    Ordered(m) && Placed(m, a) && Backed(m, a)
  }

  lemma ProducerIsSafe<T>(m: Shared<T>, me: Id, p: ProducerStep<T>, c: Choice)
    requires Ready(m, Producing(p))
    ensures SafeStep(m, Producing(p), FireProducer(m, me, p, c).0, FireProducer(m, me, p, c).1)
  {
    assert Trades(m, Producing(p), FireProducer(m, me, p, c).0, FireProducer(m, me, p, c).1);
  }

  lemma RetryIsSafe<T>(m: Shared<T>, r: RetryStep, c: Choice)
    requires Ready(m, Retrying(r))
    ensures SafeStep(m, Retrying(r), FireRetry(m, r, c).0, FireRetry(m, r, c).1)
  {
  }

  lemma ConsumerIsSafe<T>(m: Shared<T>, q: ConsumerStep)
    requires Ready(m, Consuming(q))
    ensures SafeStep(m, Consuming(q), FireConsumer(m, q).0, FireConsumer(m, q).1)
  {
    assert Trades(m, Consuming(q), FireConsumer(m, q).0, FireConsumer(m, q).1);
  }

  lemma DrainIsSafe<T>(m: Shared<T>, d: DrainStep, c: Choice)
    requires Ready(m, Draining(d))
    ensures SafeStep(m, Draining(d), FireDrain(m, d, c).0, FireDrain(m, d, c).1)
  {
  }

  lemma ClaimIsSafe<T>(m: Shared<T>, k: ClaimStep, c: Choice)
    requires Ready(m, Claiming(k))
    ensures SafeStep(m, Claiming(k), FireClaim(m, k, c).0, FireClaim(m, k, c).1)
  {
    assert Trades(m, Claiming(k), FireClaim(m, k, c).0, FireClaim(m, k, c).1);
    match k
    case CloserBegin =>
    case ClaimSealProducers =>
    case ClaimCloseNormals =>
    case ClaimSealNormals =>
    case ClaimCloseSignal =>
    case ClaimLoad =>
    case ClaimSwap =>
  }

  lemma OwnerIsSafe<T>(m: Shared<T>, lease: nat, o: OwnerStep, c: Choice)
    requires Ready(m, Owning(lease, o))
    ensures SafeStep(m, Owning(lease, o), FireOwner(m, lease, o, c).0, FireOwner(m, lease, o, c).1)
  {
  }

  lemma FireIsSafe<T>(m: Shared<T>, me: Id, a: Activity<T>, c: Choice)
    requires Ready(m, a)
    ensures SafeStep(m, a, Fire(m, me, a, c).0, Fire(m, me, a, c).1)
  {
    match a
    case Producing(p) => ProducerIsSafe(m, me, p, c);
    case Retrying(r) => RetryIsSafe(m, r, c);
    case Consuming(q) => ConsumerIsSafe(m, q);
    case Draining(d) => DrainIsSafe(m, d, c);
    case Claiming(k) => ClaimIsSafe(m, k, c);
    case Owning(lease, o) => OwnerIsSafe(m, lease, o, c);
    case _ =>
  }

  /** Every permit is counted, and a drain or terminal owner exists exactly while the flags say so. */
  predicate Counted<T>(s: State<T>) {
    && |Holders(s.acts, ProducerPermit)| == s.shared.producers.count
    && |Holders(s.acts, NormalPermit)| == s.shared.normals.count
    && |Holders(s.acts, DrainPermit)| == One(s.shared.signal.InDrain())
    && |Holders(s.acts, TerminalLease)| == One(s.shared.terminal.Active?)
  }

  predicate AllPlaced<T>(s: State<T>) {
    forall i :: i in s.acts ==> Placed(s.shared, s.acts[i])
  }

  predicate Finishing<T>(a: Activity<T>) {
    a.Owning? && a.owner.OwnerFinish?
  }

  /** A terminal owner that found the queue empty, and a closed mailbox, stay empty. */
  predicate StaysEmpty<T>(s: State<T>) {
    && (s.shared.terminal.Closed? ==> s.shared.queue == [])
    && (forall i :: i in s.acts && Finishing(s.acts[i]) ==> s.shared.queue == [])
  }

  /** Every queued payload still has its producer on the way to requesting a drain. */
  predicate AllAnnounced<T>(s: State<T>) {
    forall k :: 0 <= k < |s.shared.queue| ==> Announcing(s.acts, s.shared.queue[k].producer)
  }

  predicate Announcing<T>(acts: map<Id, Activity<T>>, i: Id) {
    i in acts && acts[i].Producing? && acts[i].producer.ProducerRequest?
  }

  predicate Leaving<T>(a: Activity<T>) {
    a.Draining? && a.drain.DrainFinish?
  }

  /** No payload is stranded: one without a producer about to announce it has a drain pending or running. */
  predicate NotStranded<T>(s: State<T>) {
    && (s.shared.signal.Idle? ==> AllAnnounced(s))
    && (forall i :: i in s.acts && Leaving(s.acts[i]) && s.shared.signal.Draining? ==> AllAnnounced(s))
  }

  /** Payloads leave in the order they came, each once, first to drains and then to terminal owners. */
  ghost predicate Conserved<T>(m: Shared<T>) {
    && m.history.accepted == m.history.drained + m.history.recovered + m.queue
    && (m.history.recovered != [] ==> !m.terminal.Normal?)
  }

  /** Every obligation to post is one acquired drain, except the one still pending. */
  predicate Obliged<T>(m: Shared<T>) {
    && (!m.signal.Closed? ==> m.history.obligations == m.history.acquisitions + One(m.signal.Pending?))
    && (m.signal.Closed? ==> m.history.acquisitions <= m.history.obligations <= m.history.acquisitions + 1)
  }

  ghost predicate Inv<T>(s: State<T>) {
    && Ordered(s.shared)
    && Counted(s)
    && AllPlaced(s)
    && StaysEmpty(s)
    && NotStranded(s)
    && Conserved(s.shared)
    && Obliged(s.shared)
  }

  lemma HolderIsCounted<T>(acts: map<Id, Activity<T>>, r: Resource, i: Id)
    requires i in acts && Holds(acts[i], r)
    ensures i in Holders(acts, r) && |Holders(acts, r)| > 0
  {
    assert i in Holders(acts, r);
  }

  lemma SomeHolder<T>(acts: map<Id, Activity<T>>, r: Resource) returns (i: Id)
    requires |Holders(acts, r)| > 0
    ensures i in acts && Holds(acts[i], r)
  {
    assert Holders(acts, r) != {};
    i :| i in Holders(acts, r);
  }

  lemma ActivityIsReady<T>(s: State<T>, i: Id)
    requires Inv(s) && i in s.acts
    ensures Ready(s.shared, s.acts[i])
  {
    var a := s.acts[i];
    if Holds(a, ProducerPermit) { HolderIsCounted(s.acts, ProducerPermit, i); }
    if Holds(a, NormalPermit) { HolderIsCounted(s.acts, NormalPermit, i); }
    if Holds(a, DrainPermit) { HolderIsCounted(s.acts, DrainPermit, i); }
    if Holds(a, TerminalLease) { HolderIsCounted(s.acts, TerminalLease, i); }
    if s.shared.signal.InDrain() {
      var j := SomeHolder(s.acts, DrainPermit);
      HolderIsCounted(s.acts, NormalPermit, j);
    }
  }

  lemma StepCounts<T>(s: State<T>, id: Id, c: Choice)
    requires Inv(s) && id in s.acts
    ensures var t := Next(s, Step(id, c));
            Ordered(t.shared) && Forward(s.shared, t.shared) && Counted(t) && AllPlaced(t)
  {
    var t := Next(s, Step(id, c));
    ActivityIsReady(s, id);
    FireIsSafe(s.shared, id, s.acts[id], c);
    HoldersCount(s.acts, id, t.acts[id], ProducerPermit);
    HoldersCount(s.acts, id, t.acts[id], NormalPermit);
    HoldersCount(s.acts, id, t.acts[id], DrainPermit);
    HoldersCount(s.acts, id, t.acts[id], TerminalLease);
    forall i | i in t.acts
      ensures Placed(t.shared, t.acts[i])
    {
      if i != id {
        PlacedIsStable(s.shared, t.shared, s.acts[i]);
      }
    }
  }

  /** Payloads move only by a push, a pop of a normal drain, or a pop of a terminal owner. */
  datatype Movement = Stayed | Pushed | Drained | Recovered

  ghost predicate Moves<T>(m: Shared<T>, me: Id, a: Activity<T>, n: Shared<T>, how: Movement) {
    var h, k := m.history, n.history;
    match how
    case Stayed =>
      n.queue == m.queue && k.accepted == h.accepted && k.drained == h.drained && k.recovered == h.recovered
    case Pushed =>
      && a.Producing? && a.producer.ProducerPush?
      && n.queue == m.queue + [Item(a.producer.payload, me)]
      && k.accepted == h.accepted + [Item(a.producer.payload, me)] && k.drained == h.drained && k.recovered == h.recovered
    case Drained =>
      && a.Draining? && a.drain.DrainLoop? && m.queue != [] && n.queue == m.queue[1..]
      && k.drained == h.drained + [m.queue[0]] && k.accepted == h.accepted && k.recovered == h.recovered
    case Recovered =>
      && a.Owning? && m.queue != [] && n.queue == m.queue[1..]
      && k.recovered == h.recovered + [m.queue[0]] && k.accepted == h.accepted && k.drained == h.drained
  }

  lemma StepMoves<T>(m: Shared<T>, me: Id, a: Activity<T>, c: Choice) returns (how: Movement)
    ensures Moves(m, me, a, Fire(m, me, a, c).0, how)
  {
    match a
    case Producing(p) => how := if p.ProducerPush? && |m.queue| != m.capacity then Pushed else Stayed;
    case Draining(d) => how := if d.DrainLoop? && c == Pop && m.queue != [] then Drained else Stayed;
    case Owning(_, o) => how := if o.OwnerLoop? && c == Pop && m.queue != [] then Recovered else Stayed;
    case _ => how := Stayed;
  }

  lemma GrowthIsAnnounced<T>(m: Shared<T>, me: Id, a: Activity<T>, c: Choice)
    requires a.Producing? && a.producer.ProducerPush?
    ensures var (n, b) := Fire(m, me, a, c);
            n.queue == m.queue || (b.Producing? && b.producer.ProducerRequest?)
  {
  }

  /** Past the seals nothing is pushed. */
  lemma EmptyStaysEmpty<T>(m: Shared<T>, me: Id, a: Activity<T>, c: Choice)
    requires Ready(m, a) && !m.terminal.Normal? && m.queue == []
    ensures Fire(m, me, a, c).0.queue == []
  {
    var how := StepMoves(m, me, a, c);
  }

  /** Only an owner that found the queue empty closes, and it had to find it empty. */
  lemma FoundEmpty<T>(m: Shared<T>, me: Id, a: Activity<T>, c: Choice)
    requires Ready(m, a)
    ensures var (n, b) := Fire(m, me, a, c);
            && (n.terminal.Closed? ==> m.terminal.Closed? || Finishing(a))
            && (Finishing(b) ==> n.queue == [])
  {
  }

  lemma StepEmpties<T>(s: State<T>, id: Id, c: Choice)
    requires Inv(s) && id in s.acts
    ensures StaysEmpty(Next(s, Step(id, c)))
  {
    var t := Next(s, Step(id, c));
    ActivityIsReady(s, id);
    FoundEmpty(s.shared, id, s.acts[id], c);
    if s.shared.queue == [] && !s.shared.terminal.Normal? {
      EmptyStaysEmpty(s.shared, id, s.acts[id], c);
    }
    forall i | i in t.acts && Finishing(t.acts[i])
      ensures t.shared.queue == []
    {
      if i != id {
        HolderIsCounted(s.acts, TerminalLease, i);
      }
    }
  }

  /** Idle and plain Draining are entered only by a drain that leaves nothing unannounced behind. */
  predicate SignalStep<T>(m: Shared<T>, a: Activity<T>, n: Shared<T>, b: Activity<T>) {
    && (n.signal.Idle? ==> m.signal.Idle? || (Leaving(a) && m.signal.Draining?))
    && (n.signal.Draining? && m.signal.InDrain() ==> m.signal.Draining?)
    && (Leaving(b) && n.signal.Draining? ==> n.queue == [])
    && (a.Producing? && a.producer.ProducerRequest? ==> !n.signal.Idle? && !n.signal.Draining?)
  }

  lemma StepSignal<T>(m: Shared<T>, me: Id, a: Activity<T>, c: Choice)
    ensures SignalStep(m, a, Fire(m, me, a, c).0, Fire(m, me, a, c).1)
  {
  }

  lemma AnnouncedKept<T>(s: State<T>, id: Id, c: Choice)
    requires id in s.acts && !Announcing(s.acts, id) && AllAnnounced(s)
    ensures AllAnnounced(Next(s, Step(id, c)))
  {
    var t := Next(s, Step(id, c));
    var how := StepMoves(s.shared, id, s.acts[id], c);
    if s.acts[id].Producing? && s.acts[id].producer.ProducerPush? {
      GrowthIsAnnounced(s.shared, id, s.acts[id], c);
    }
    forall k | 0 <= k < |t.shared.queue|
      ensures Announcing(t.acts, t.shared.queue[k].producer)
    {
      var j := if |t.shared.queue| < |s.shared.queue| then k + 1 else k;
      assert j < |s.shared.queue| ==> Announcing(s.acts, s.shared.queue[j].producer);
    }
  }

  lemma StepStrandsNothing<T>(s: State<T>, id: Id, c: Choice)
    requires Inv(s) && id in s.acts
    ensures NotStranded(Next(s, Step(id, c)))
  {
    var t := Next(s, Step(id, c));
    StepSignal(s.shared, id, s.acts[id], c);
    if !Announcing(s.acts, id) && AllAnnounced(s) {
      AnnouncedKept(s, id, c);
    }
    forall i | i in t.acts && Leaving(t.acts[i]) && t.shared.signal.Draining?
      ensures AllAnnounced(t)
    {
      if i != id {
        HolderIsCounted(s.acts, DrainPermit, i);
        assert Leaving(s.acts[i]);
      }
    }
  }

  lemma StepConserves<T>(m: Shared<T>, me: Id, a: Activity<T>, c: Choice)
    requires Ready(m, a) && Conserved(m)
    requires Fire(m, me, a, c).0.terminal.Normal? ==> m.terminal.Normal?
    ensures Conserved(Fire(m, me, a, c).0)
  {
    var n := Fire(m, me, a, c).0;
    var how := StepMoves(m, me, a, c);
    MovesConserve(m, me, a, n, how);
  }

  lemma MovesConserve<T>(m: Shared<T>, me: Id, a: Activity<T>, n: Shared<T>, how: Movement)
    requires Backed(m, a) && Ordered(m) && Conserved(m)
    requires Moves(m, me, a, n, how)
    requires n.terminal.Normal? ==> m.terminal.Normal?
    ensures Conserved(n)
  {
    match how
    case Stayed =>
    case Pushed =>
    case Drained =>
      assert m.queue == [m.queue[0]] + n.queue;
      assert m.history.recovered == [];
    case Recovered => assert m.queue == [m.queue[0]] + n.queue;
  }

  lemma StepObliges<T>(m: Shared<T>, me: Id, a: Activity<T>, c: Choice)
    requires Obliged(m)
    ensures Obliged(Fire(m, me, a, c).0)
  {
  }

  lemma StartKeepsInv<T>(s: State<T>, id: Id, a: Activity<T>)
    requires Inv(s)
    ensures Inv(Next(s, Start(id, a)))
  {
    if id !in s.acts && a.Initial() {
      HoldersCount(s.acts, id, a, ProducerPermit);
      HoldersCount(s.acts, id, a, NormalPermit);
      HoldersCount(s.acts, id, a, DrainPermit);
      HoldersCount(s.acts, id, a, TerminalLease);
    }
  }

  lemma StepKeepsInv<T>(s: State<T>, id: Id, c: Choice)
    requires Inv(s)
    ensures Inv(Next(s, Step(id, c)))
  {
    if id in s.acts {
      ActivityIsReady(s, id);
      StepCounts(s, id, c);
      StepEmpties(s, id, c);
      StepStrandsNothing(s, id, c);
      StepConserves(s.shared, id, s.acts[id], c);
      StepObliges(s.shared, id, s.acts[id], c);
    }
  }

  /** Every state of every run, under every interleaving, satisfies the invariant. */
  lemma {:induction false} RunKeepsInv<T>(capacity: nat, events: seq<Event<T>>)
    ensures Inv(Run(New(capacity), events))
    decreases |events|
  {
    if events != [] {
      var before := events[..|events| - 1];
      RunKeepsInv(capacity, before);
      match events[|events| - 1]
      case Start(id, a) => StartKeepsInv(Run(New(capacity), before), id, a);
      case Step(id, c) => StepKeepsInv(Run(New(capacity), before), id, c);
    }
  }
}
