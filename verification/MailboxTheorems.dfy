/** What the invariant means for users of the mailbox, over every run of every interleaving. */
module MailboxTheorems {
  import opened Words
  import opened Wrappers
  import opened Ingress
  import Drain
  import WorkQueue
  import opened Mailbox
  import opened MailboxInvariant
  import opened MailboxOwnership

  lemma {:induction false} RunAppends<T>(s: State<T>, a: seq<Event<T>>, b: seq<Event<T>>)
    ensures Run(s, a + b) == Run(Run(s, a), b)
    decreases |b|
  {
    if b == [] {
      assert a + b == a;
    } else {
      var init := b[..|b| - 1];
      assert (a + b)[..|a + b| - 1] == a + init;
      RunAppends(s, a, init);
    }
  }

  lemma {:induction false} RunMovesForward<T>(s: State<T>, events: seq<Event<T>>)
    requires Inv(s)
    ensures Inv(Run(s, events)) && Forward(s.shared, Run(s, events).shared)
    decreases |events|
  {
    if events != [] {
      var before := events[..|events| - 1];
      RunMovesForward(s, before);
      var t := Run(s, before);
      match events[|events| - 1]
      case Start(id, a) => StartKeepsInv(t, id, a);
      case Step(id, c) =>
        if id in t.acts {
          StepCounts(t, id, c);
        }
        StepKeepsInv(t, id, c);
    }
  }

  /** No `unreachable!` is reached, no permit underflows, a drain never finds its signal lost, and
      a terminal owner is never stale. */
  lemma {:induction false} NoPanic<T>(capacity: nat, events: seq<Event<T>>, i: Id)
    requires i in Run(New(capacity), events).acts
    ensures var a := Run(New(capacity), events).acts[i];
            && !a.Panicked?
            && a != DrainDone(Drain.AfterClosed)
            && a != OwnerDone(Released(Some(Stale)))
  {
    RunKeepsInv(capacity, events);
    assert Placed(Run(New(capacity), events).shared, Run(New(capacity), events).acts[i]);
  }

  /** While no drain is pending or running, each queued payload's producer is about to request one. */
  lemma {:induction false} NoStrandedWork<T>(capacity: nat, events: seq<Event<T>>, k: nat)
    requires var m := Run(New(capacity), events).shared;
             m.signal.Idle? && k < |m.queue|
    ensures var s := Run(New(capacity), events);
            Announcing(s.acts, s.shared.queue[k].producer)
  {
    RunKeepsInv(capacity, events);
  }

  predicate Resting<T>(a: Activity<T>) {
    !a.Producing? && !a.Retrying? && !a.Consuming? && !a.Draining? && !a.Claiming? && !a.Owning?
  }

  /** When every operation has returned, retained work still has a post owed or a terminal owner due. */
  lemma {:induction false} RetainedWorkIsOwed<T>(capacity: nat, events: seq<Event<T>>)
    requires var s := Run(New(capacity), events);
             s.shared.queue != [] && forall i :: i in s.acts ==> Resting(s.acts[i])
    ensures var m := Run(New(capacity), events).shared;
            m.signal.Pending? || (m.signal.Closed? && (m.terminal.Normal? || m.terminal.Pending?))
  {
    RunKeepsInv(capacity, events);
    var s := Run(New(capacity), events);
    if s.shared.signal.InDrain() {
      var i := SomeHolder(s.acts, DrainPermit);
    }
    if s.shared.terminal.Active? {
      var i := SomeHolder(s.acts, TerminalLease);
    }
    assert s.shared.signal.Idle? ==> Announcing(s.acts, s.shared.queue[0].producer);
  }

  /** Terminal ownership excludes producers, normal drains, retry posts and a second owner. */
  lemma {:induction false} TerminalExclusion<T>(capacity: nat, events: seq<Event<T>>, i: Id, j: Id)
    requires var s := Run(New(capacity), events);
             !s.shared.terminal.Normal? && i in s.acts && j in s.acts
    ensures var s := Run(New(capacity), events);
            && s.shared.producers == Gate(Sealed, 0)
            && s.shared.normals == Gate(Sealed, 0)
            && s.shared.signal.Closed?
            && !Holds(s.acts[i], ProducerPermit) && !Holds(s.acts[i], NormalPermit)
            && (s.acts[i].Owning? && s.acts[j].Owning? ==> i == j)
            && (s.acts[i].Owning? ==> s.shared.terminal.Active?)
  {
    RunKeepsInv(capacity, events);
    var s := Run(New(capacity), events);
    ActivityIsReady(s, i);
    if s.acts[i].Owning? && s.acts[j].Owning? {
      HolderIsCounted(s.acts, TerminalLease, i);
      HolderIsCounted(s.acts, TerminalLease, j);
      OnlyHolder(s.acts, TerminalLease, i, j);
    }
  }

  /** At most one normal drain owns the queue, and only while the signal says so. */
  lemma {:induction false} OneNormalDrain<T>(capacity: nat, events: seq<Event<T>>, i: Id, j: Id)
    requires var s := Run(New(capacity), events);
             && i in s.acts && Holds(s.acts[i], DrainPermit)
             && j in s.acts && Holds(s.acts[j], DrainPermit)
    ensures i == j && Run(New(capacity), events).shared.signal.InDrain()
  {
    RunKeepsInv(capacity, events);
    var s := Run(New(capacity), events);
    HolderIsCounted(s.acts, DrainPermit, i);
    HolderIsCounted(s.acts, DrainPermit, j);
    OnlyHolder(s.acts, DrainPermit, i, j);
  }

  /** The activity is inside a host callback that posts. */
  predicate Posting<T>(a: Activity<T>) {
    || (a.Producing? && a.producer.ProducerPost?)
    || (a.Retrying? && a.retry.RetryPost?)
    || (a.Draining? && a.drain.DrainOperation?)
  }

  /** The activity has passed both seals and could still take terminal ownership. */
  predicate PastSeals<T>(a: Activity<T>) {
    a.Claiming? && (a.claim.ClaimCloseSignal? || a.claim.ClaimLoad? || a.claim.ClaimSwap?)
  }

  /** While an initial, successor or retry post runs, terminal ownership neither exists nor can be taken. */
  lemma {:induction false} PostsExcludeTerminalOwners<T>(capacity: nat, events: seq<Event<T>>, poster: Id, other: Id)
    requires var s := Run(New(capacity), events);
             poster in s.acts && Posting(s.acts[poster]) && other in s.acts
    ensures var s := Run(New(capacity), events);
            && s.shared.terminal.Normal? && !s.shared.signal.Closed?
            && !PastSeals(s.acts[other]) && !s.acts[other].Owning?
  {
    RunKeepsInv(capacity, events);
    var s := Run(New(capacity), events);
    ActivityIsReady(s, poster);
    ActivityIsReady(s, other);
  }

  /** Accepted payloads, in push order, are those drained, then those recovered, then those queued. */
  lemma {:induction false} PayloadsAreConserved<T>(capacity: nat, events: seq<Event<T>>)
    ensures var m := Run(New(capacity), events).shared;
            && m.history.accepted == m.history.drained + m.history.recovered + m.queue
            && |m.queue| <= capacity
            && (m.history.recovered != [] ==> !m.terminal.Normal?)
  {
    RunKeepsInv(capacity, events);
    RunMovesForward<T>(New(capacity), events);
  }

  /** An enqueue in progress or returned either still carries the payload it was offered, or the
      mailbox accepted exactly that payload from it, exactly once. */
  lemma {:induction false} PayloadHasOneOwner<T>(capacity: nat, events: seq<Event<T>>, i: Id)
    requires var s := Run(New(capacity), events);
             i in s.acts && Enqueues(s.acts[i])
    ensures var s := Run(New(capacity), events);
            var accepted := s.shared.history.accepted;
            && i in s.offers
            && OncePerProducer(accepted)
            && (if Published(s.acts[i])
                then Carried(s.acts[i]).None? && exists k :: 0 <= k < |accepted| && accepted[k] == Item(s.offers[i], i)
                else Carried(s.acts[i]) == Some(s.offers[i]) && !PushedBy(accepted, i))
  {
    RunKeepsOwned(capacity, events);
    var s := Run(New(capacity), events);
    var accepted := s.shared.history.accepted;
    assert ActivityOwns(s, i);
    if PushedBy(accepted, i) {
      var k :| 0 <= k < |accepted| && accepted[k].producer == i;
      assert ItemOwned(s, accepted[k]);
      assert accepted[k] == Item(s.offers[i], i);
    }
  }

  /** A closed mailbox has transferred every payload it ever accepted, and stays that way for ever. */
  lemma {:induction false} ClosedIsFinal<T>(capacity: nat, events: seq<Event<T>>, later: seq<Event<T>>)
    requires Run(New(capacity), events).shared.terminal.Closed?
    ensures var m := Run(New(capacity), events).shared;
            var n := Run(New(capacity), events + later).shared;
            && n.terminal.Closed? && n.queue == []
            && n.history.accepted == m.history.accepted == m.history.drained + m.history.recovered
            && n.history.drained + n.history.recovered == m.history.accepted
  {
    RunKeepsInv(capacity, events);
    RunAppends<T>(New(capacity), events, later);
    RunMovesForward(Run(New(capacity), events), later);
    ClosedAcceptsNothing(Run(New(capacity), events), later);
  }

  lemma {:induction false} ClosedAcceptsNothing<T>(s: State<T>, events: seq<Event<T>>)
    requires Inv(s) && s.shared.terminal.Closed?
    ensures Run(s, events).shared.history.accepted == s.shared.history.accepted
    decreases |events|
  {
    if events != [] {
      var before := events[..|events| - 1];
      ClosedAcceptsNothing(s, before);
      RunMovesForward(s, before);
      var t := Run(s, before);
      match events[|events| - 1]
      case Start(id, a) =>
      case Step(id, c) =>
        if id in t.acts {
          ActivityIsReady(t, id);
          var how := StepMoves(t.shared, id, t.acts[id], c);
        }
    }
  }

  /** A claim started alone once admission has closed and settled: six steps to its answer. */
  function SoloClaim<T>(m: Shared<T>, me: Id): (Shared<T>, Activity<T>) {
    var (m1, a1) := Fire(m, me, Claiming(ClaimSealProducers), Succeed);
    var (m2, a2) := Fire(m1, me, a1, Succeed);
    var (m3, a3) := Fire(m2, me, a2, Succeed);
    var (m4, a4) := Fire(m3, me, a3, Succeed);
    var (m5, a5) := Fire(m4, me, a4, Succeed);
    Fire(m5, me, a5, Succeed)
  }

  /** After close, with no permit left, a claim running alone succeeds unless an owner is active or has finished. */
  lemma TerminalProgress<T>(m: Shared<T>, me: Id)
    requires !m.producers.phase.Open? && m.producers.count == 0 && m.normals.count == 0
    ensures var (n, a) := SoloClaim(m, me);
            && (m.terminal.Normal? || m.terminal.Pending? <==> a == Owning(m.history.claims + 1, OwnerLoop))
            && (m.terminal.Active? <==> a == ClaimRefused(TerminalDrainActive))
            && (m.terminal.Closed? <==> a == ClaimRefused(AlreadyClosed))
            && n.queue == m.queue
  {
  }

  /** And under every interleaving: once both gates have stopped admitting and their permits have
      settled, no claim is ever again turned away because of a permit. */
  lemma {:induction false} SettledClaimsNeverWait<T>(capacity: nat, events: seq<Event<T>>, later: seq<Event<T>>, id: Id, c: Choice)
    requires var m := Run(New(capacity), events).shared;
             && !m.producers.phase.Open? && m.producers.count == 0
             && !m.normals.phase.Open? && m.normals.count == 0
    requires var t := Run(New(capacity), events + later);
             id in t.acts && t.acts[id].Claiming?
    ensures var b := Next(Run(New(capacity), events + later), Step(id, c)).acts[id];
            || b.Claiming? || b.Owning? || b.CloserDone?
            || b == ClaimRefused(TerminalDrainActive) || b == ClaimRefused(AlreadyClosed)
  {
    RunKeepsInv(capacity, events);
    RunAppends<T>(New(capacity), events, later);
    RunMovesForward(Run(New(capacity), events), later);
  }

  /** Each refusal of a claim names what really stands in its way at that moment. */
  lemma {:induction false} RefusalsAreTruthful<T>(capacity: nat, events: seq<Event<T>>, id: Id, c: Choice)
    requires var s := Run(New(capacity), events); id in s.acts && s.acts[id].Claiming?
    ensures var s := Run(New(capacity), events);
            var b := Next(s, Step(id, c)).acts[id];
            && (forall n :: b == ClaimRefused(ProducerReservationsRemain(n)) ==>
                  n == |Holders(s.acts, ProducerPermit)| && n > 0)
            && (forall n :: b == ClaimRefused(NormalDrainReservationsRemain(n)) ==>
                  n == |Holders(s.acts, NormalPermit)| && n > 0)
            && (b == ClaimRefused(ProducerCloseNotStarted) ==> s.shared.producers.phase.Open?)
            && (b == ClaimRefused(TerminalDrainActive) ==> |Holders(s.acts, TerminalLease)| == 1)
            && (b == ClaimRefused(AlreadyClosed) ==> s.shared.terminal.Closed? && s.shared.queue == [])
  {
    RunKeepsInv(capacity, events);
  }

  /** A claim refused because normal permits were live has closed the normal gate for good: no later
      acquire or retry post is admitted, although the mailbox has no terminal owner. */
  lemma {:induction false} FailedClaimStopsDrains<T>(capacity: nat, events: seq<Event<T>>, later: seq<Event<T>>, i: Id, n: nat, j: Id, c: Choice)
    requires var s := Run(New(capacity), events);
             i in s.acts && s.acts[i] == ClaimRefused(NormalDrainReservationsRemain(n))
    requires j in Run(New(capacity), events + later).acts
    ensures var t := Run(New(capacity), events + later);
            var b := Next(t, Step(j, c)).acts[j];
            && !t.shared.normals.phase.Open?
            && (t.acts[j] == Consuming(ConsumerReserve) ==> b == Consuming(ConsumerObserve(false)))
            && (t.acts[j] == Retrying(RetryReserve) ==> b == RetryDone(NotPosted))
  {
    RunKeepsInv(capacity, events);
    var s := Run(New(capacity), events);
    assert Placed(s.shared, s.acts[i]);
    RunAppends<T>(New(capacity), events, later);
    RunMovesForward(s, later);
  }

  /** The claim has closed the normal gate: it goes on, owns, owned, or was refused after that access. */
  predicate PastNormals<T>(a: Activity<T>) {
    || (a.Claiming? && !a.claim.CloserBegin? && !a.claim.ClaimSealProducers? && !a.claim.ClaimCloseNormals?)
    || a.Owning? || a.OwnerDone?
    || (a.ClaimRefused? && !a.refusal.ProducerCloseNotStarted? && !a.refusal.ProducerReservationsRemain?)
  }

  lemma PastNormalsIsClosed<T>(s: State<T>, id: Id)
    requires Inv(s) && id in s.acts && PastNormals(s.acts[id])
    ensures !s.shared.normals.phase.Open?
  {
    ActivityIsReady(s, id);
  }

  /** On every run, a claim past that access stands in a mailbox whose normal gate admits no drain. */
  lemma {:induction false} PastClaimsStopDrains<T>(capacity: nat, events: seq<Event<T>>, id: Id)
    requires var s := Run(New(capacity), events); id in s.acts && PastNormals(s.acts[id])
    ensures !Run(New(capacity), events).shared.normals.phase.Open?
  {
    RunKeepsInv(capacity, events);
    PastNormalsIsClosed(Run(New(capacity), events), id);
  }

  /** A claim at its first access that will be refused for producers. */
  predicate ProducersInTheWay<T>(m: Shared<T>) {
    m.producers.phase.Open? || (m.producers.phase.Closing? && m.producers.count > 0)
  }

  /** The claim is about to close the normal gate or has done it. */
  predicate PastProducers<T>(a: Activity<T>) {
    a == Claiming(ClaimCloseNormals) || PastNormals(a)
  }

  lemma FireGoesOn<T>(m: Shared<T>, me: Id, a: Activity<T>, c: Choice)
    requires Ready(m, a) && PastProducers(a)
    ensures PastProducers(Fire(m, me, a, c).1)
  {
  }

  lemma {:induction false} ClaimGoesOn<T>(s: State<T>, later: seq<Event<T>>, id: Id)
    requires Inv(s) && id in s.acts && PastProducers(s.acts[id])
    ensures var t := Run(s, later); Inv(t) && id in t.acts && PastProducers(t.acts[id])
    decreases |later|
  {
    if later != [] {
      var before := later[..|later| - 1];
      ClaimGoesOn(s, before, id);
      match later[|later| - 1]
      case Start(i, a) => StartKeepsInv(Run(s, before), i, a);
      case Step(i, c) =>
        StepKeepsInv(Run(s, before), i, c);
        ActivityIsReady(Run(s, before), id);
        FireGoesOn(Run(s, before).shared, id, Run(s, before).acts[id], c);
    }
  }

  lemma FirstAccess<T>(m: Shared<T>, me: Id, c: Choice)
    requires m.producers.Valid()
    ensures var (n, b) := Fire(m, me, Claiming(ClaimSealProducers), c);
            if ProducersInTheWay(m) then n == m && b.ClaimRefused? else b == Claiming(ClaimCloseNormals)
  {
  }

  lemma {:induction false} RefusalStays<T>(s: State<T>, later: seq<Event<T>>, id: Id)
    requires id in s.acts && s.acts[id].ClaimRefused?
    ensures var t := Run(s, later); id in t.acts && t.acts[id] == s.acts[id]
    decreases |later|
  {
    if later != [] {
      RefusalStays(s, later[..|later| - 1], id);
    }
  }

  /** What a terminal attempt does to normal drains is decided at its first access. It is refused there,
      having changed nothing, if and only if the producers were open, or closing with a permit live.
      Otherwise, under every interleaving, it goes on to close the normal gate, refused later or not. */
  lemma {:induction false} RefusalsThatSpareDrains<T>(capacity: nat, events: seq<Event<T>>, id: Id, c: Choice, later: seq<Event<T>>)
    requires var s := Run(New(capacity), events); id in s.acts && s.acts[id] == Claiming(ClaimSealProducers)
    ensures var s := Run(New(capacity), events);
            var first := Next(s, Step(id, c));
            var t := Run(New(capacity), events + [Step(id, c)] + later);
            && id in t.acts
            && (ProducersInTheWay(s.shared) <==> first.acts[id].ClaimRefused?)
            && (ProducersInTheWay(s.shared) ==> first.shared == s.shared && t.acts[id] == first.acts[id])
            && (!ProducersInTheWay(s.shared) ==> t.acts[id] == Claiming(ClaimCloseNormals) || !t.shared.normals.phase.Open?)
  {
    RunKeepsInv(capacity, events);
    var s := Run(New(capacity), events);
    var first := Next(s, Step(id, c));
    assert (events + [Step(id, c)])[..|events|] == events;
    FirstAccess(s.shared, id, c);
    RunAppends<T>(New(capacity), events + [Step(id, c)], later);
    if ProducersInTheWay(s.shared) {
      RefusalStays(first, later, id);
    } else {
      StepKeepsInv(s, id, c);
      ClaimGoesOn(first, later, id);
      if PastNormals(Run(first, later).acts[id]) {
        PastNormalsIsClosed(Run(first, later), id);
      }
    }
  }

  /** Before close, each new obligation to post corresponds to one acquired drain or to the one pending. */
  lemma {:induction false} ObligationsBalance<T>(capacity: nat, events: seq<Event<T>>)
    requires !Run(New(capacity), events).shared.signal.Closed?
    ensures var m := Run(New(capacity), events).shared;
            m.history.obligations == m.history.acquisitions + One(m.signal.Pending?)
  {
    RunKeepsInv(capacity, events);
  }

  /** An enqueue is answered Closed exactly when the producers have been told to close or every permit the
      field can count is held by an enqueue in progress. */
  lemma {:induction false} EnqueueClosedExactly<T>(capacity: nat, events: seq<Event<T>>, me: Id, v: T, posting: bool, c: Choice)
    ensures var s := Run(New(capacity), events);
            (Fire(s.shared, me, Producing(ProducerReserve(v, posting)), c).1 == EnqueueDone(RejectedClosed(v)) <==>
             !s.shared.producers.phase.Open? || |Holders(s.acts, ProducerPermit)| == RESERVATION_MASK)
  {
    RunKeepsInv(capacity, events);
  }

  /** An acquire that found its gate closed never reports the mailbox as open. */
  lemma {:induction false} UnavailableMeansClosing<T>(capacity: nat, events: seq<Event<T>>, i: Id, c: Choice)
    requires var s := Run(New(capacity), events);
             i in s.acts && s.acts[i] in {Consuming(ConsumerObserve(false)), Consuming(ConsumerObserveGate(false))}
    ensures var s := Run(New(capacity), events);
            Next(s, Step(i, c)).acts[i] != ConsumerDone(Unavailable(WorkQueue.Open))
  {
    RunKeepsInv(capacity, events);
    var s := Run(New(capacity), events);
    assert Placed(s.shared, s.acts[i]);
  }
}
