/** The mailbox without close: producers and drains over one bounded queue and one drain signal.

  As in `Mailbox`, an activity is one operation in progress and a step is one deciding access. A drain
  that is dropped takes the same steps as one that is finished; only its answer is lost.
*/
module BoundedMailbox {
  import opened Words
  import opened Wrappers
  import Drain
  import Mailbox

  type Id = Mailbox.Id

  type Item<T> = Mailbox.Item<T>

  /** From `holder` on, what has happened so far; no operation reads it. */
  datatype Shared<T> = Shared(
    capacity: nat,
    queue: seq<Item<T>>,
    signal: Drain.Signal,
    holder: Option<Id>,
    accepted: seq<Item<T>>,
    drained: seq<Item<T>>,
    posts: nat,                // answers that oblige the host to post
    acquisitions: nat)

  datatype Activity<T> =
    | Pushing(payload: T)
    | Requesting
    | Enqueued(scheduled: bool)
    | Full(payload: T)
    | Acquiring
    | NotAcquired(busy: bool)
    | Popping
    | Checking
    | Preserving
    | Finishing
    | Finished(after: Drain.After)
    | Panicked

  /** Whether the holder of a drain pops once more, or is done. */
  datatype Choice = Pop | Finish

  function Fire<T>(m: Shared<T>, me: Id, a: Activity<T>, c: Choice): (Shared<T>, Activity<T>) {
    match a
    case Pushing(v) =>
      if |m.queue| == m.capacity then (m, Full(v))
      else (m.(queue := m.queue + [Mailbox.Item(v, me)], accepted := m.accepted + [Mailbox.Item(v, me)]), Requesting)
    case Requesting =>
      (match m.signal.Request()
       case (Scheduled, s) => (m.(signal := s, posts := m.posts + 1), Enqueued(true))
       case (Coalesced, s) => (m.(signal := s), Enqueued(false))
       case (RequestClosed, _) => (m, Panicked))
    case Acquiring =>
      (match m.signal.Acquire()
       case (AcquireIdle, _) => (m, NotAcquired(false))
       case (Busy, _) => (m, NotAcquired(true))
       case (AcquireClosed, _) => (m, Panicked)
       case (Acquired, s) => (m.(signal := s, holder := Some(me), acquisitions := m.acquisitions + 1), Popping))
    case Popping =>
      if c == Finish then (m, Checking)
      else if m.queue == [] then (m, Popping)
      else (m.(queue := m.queue[1..], drained := m.drained + [m.queue[0]]), Popping)
    case Checking => (m, if m.queue == [] then Finishing else Preserving)
    case Preserving =>
      (match m.signal.Request()
       case (Coalesced, s) => (m.(signal := s), Finishing)
       case (_, _) => (m, Panicked))
    case Finishing =>
      var (after, s) := m.signal.Finish();
      (m.(signal := s, holder := None, posts := m.posts + One(after.AfterPending?)),
       if after.AfterClosed? then Panicked else Finished(after))
    case _ => (m, a)
  }

  datatype State<T> = State(shared: Shared<T>, acts: map<Id, Activity<T>>)

  datatype Event<T> = Enqueue(id: Id, payload: T) | Acquire(id: Id) | Step(id: Id, choice: Choice)

  function Next<T>(s: State<T>, e: Event<T>): State<T> {
    match e
    case Enqueue(id, v) => if id in s.acts then s else s.(acts := s.acts[id := Pushing(v)])
    case Acquire(id) => if id in s.acts then s else s.(acts := s.acts[id := Acquiring])
    case Step(id, c) =>
      if id !in s.acts then s
      else
        var (m, a) := Fire(s.shared, id, s.acts[id], c);
        State(m, s.acts[id := a])
  }

  function New<T>(capacity: nat): State<T> {
    State(Shared(capacity, [], Drain.Idle, None, [], [], 0, 0), map[])
  }

  function Run<T>(capacity: nat, events: seq<Event<T>>): State<T>
    decreases |events|
  {
    if events == [] then New(capacity) else Next(Run(capacity, events[..|events| - 1]), events[|events| - 1])
  }

  predicate Drains<T>(a: Activity<T>) {
    a.Popping? || a.Checking? || a.Preserving? || a.Finishing?
  }

  /** Every queued payload's producer is about to request a drain. */
  predicate AllAnnounced<T>(s: State<T>) {
    forall k :: 0 <= k < |s.shared.queue| ==>
      s.shared.queue[k].producer in s.acts && s.acts[s.shared.queue[k].producer].Requesting?
  }

  /** The drain has seen the queue empty and no request has come since. */
  predicate Leaving<T>(s: State<T>) {
    && s.shared.holder.Some? && s.shared.holder.value in s.acts
    && s.acts[s.shared.holder.value].Finishing? && s.shared.signal.Draining?
  }

  ghost predicate Inv<T>(s: State<T>) {
    var m := s.shared;
    && !m.signal.Closed?
    && (m.signal.InDrain() <==> m.holder.Some?)
    && (forall i :: i in s.acts ==> (Drains(s.acts[i]) <==> m.holder == Some(i)) && !s.acts[i].Panicked?)
    && (m.holder.Some? ==> m.holder.value in s.acts)
    && m.accepted == m.drained + m.queue
    && |m.queue| <= m.capacity
    && m.posts == m.acquisitions + One(m.signal.Pending?)
    && (m.signal.Idle? || Leaving(s) ==> AllAnnounced(s))
  }

  lemma StepAnnounces<T>(s: State<T>, id: Id, c: Choice)
    requires Inv(s) && id in s.acts
    requires Next(s, Step(id, c)).shared.signal.Idle? || Leaving(Next(s, Step(id, c)))
    ensures AllAnnounced(Next(s, Step(id, c)))
  {
    var t := Next(s, Step(id, c));
    var m := s.shared;
    assert m.signal.Idle? || Leaving(s) || m.queue == [];
    forall k | 0 <= k < |t.shared.queue|
      ensures t.shared.queue[k].producer in t.acts && t.acts[t.shared.queue[k].producer].Requesting?
    {
      if k < |m.queue| {
        assert t.shared.queue[k] == m.queue[k];
      }
    }
  }

  lemma StepKeepsInv<T>(s: State<T>, id: Id, c: Choice)
    requires Inv(s) && id in s.acts
    ensures Inv(Next(s, Step(id, c)))
  {
    if Next(s, Step(id, c)).shared.signal.Idle? || Leaving(Next(s, Step(id, c))) {
      StepAnnounces(s, id, c);
    }
  }

  lemma {:induction false} RunKeepsInv<T>(capacity: nat, events: seq<Event<T>>)
    ensures Inv(Run(capacity, events)) && Run(capacity, events).shared.capacity == capacity
    decreases |events|
  {
    if events != [] {
      var before, e := events[..|events| - 1], events[|events| - 1];
      RunKeepsInv(capacity, before);
      if e.Step? && e.id in Run(capacity, before).acts {
        StepKeepsInv(Run(capacity, before), e.id, e.choice);
      }
    }
  }

  /** No `unreachable!` is reached, and the drain never finds its signal lost. */
  lemma {:induction false} NoPanic<T>(capacity: nat, events: seq<Event<T>>, i: Id)
    requires i in Run(capacity, events).acts
    ensures !Run(capacity, events).acts[i].Panicked?
  {
    RunKeepsInv(capacity, events);
  }

  /** At most one drain is live, and one is exactly while the signal says so. */
  lemma {:induction false} OneDrain<T>(capacity: nat, events: seq<Event<T>>, i: Id, j: Id)
    requires var s := Run(capacity, events); i in s.acts && j in s.acts && Drains(s.acts[i]) && Drains(s.acts[j])
    ensures i == j && Run(capacity, events).shared.signal.InDrain()
  {
    RunKeepsInv(capacity, events);
  }

  /** A queued payload is announced by a pending or running drain, or its producer is about to request
      one: however drains are finished or dropped, none is stranded. */
  lemma {:induction false} NoStrandedWork<T>(capacity: nat, events: seq<Event<T>>, k: nat)
    requires k < |Run(capacity, events).shared.queue|
    ensures var s := Run(capacity, events);
            var producer := s.shared.queue[k].producer;
            || s.shared.signal.Pending? || s.shared.signal.InDrain()
            || (producer in s.acts && s.acts[producer].Requesting?)
  {
    RunKeepsInv(capacity, events);
  }

  /** Accepted payloads leave in the order they came, each once, and the obligations to post are the
      drains acquired and the one still pending. */
  lemma {:induction false} PayloadsAreConserved<T>(capacity: nat, events: seq<Event<T>>)
    ensures var m := Run(capacity, events).shared;
            && m.accepted == m.drained + m.queue && |m.queue| <= capacity
            && m.posts == m.acquisitions + One(m.signal.Pending?)
  {
    RunKeepsInv(capacity, events);
  }

  /** An enqueue is full exactly when the queue is, and its caller is told to post exactly when the signal was
      idle. An acquire takes the drain exactly when one is pending, and is busy exactly when another
      activity drains. A pop takes the front of the queue, if there is one. */
  lemma {:induction false} DecidesExactly<T>(capacity: nat, events: seq<Event<T>>, i: Id, c: Choice)
    requires i in Run(capacity, events).acts
    ensures var s := Run(capacity, events);
            var a, b := s.acts[i], Next(s, Step(i, c)).acts[i];
            && (a.Pushing? ==> b == if |s.shared.queue| == capacity then Full(a.payload) else Requesting)
            && (a.Requesting? ==> b == Enqueued(s.shared.signal.Idle?))
            && (a.Acquiring? ==>
                  && (b.Popping? <==> s.shared.signal.Pending?)
                  && (b == NotAcquired(true) <==> exists j :: j in s.acts && Drains(s.acts[j]))
                  && (b == NotAcquired(false) <==> s.shared.signal.Idle?))
            && (a.Popping? && c == Pop ==>
                  var t := Next(s, Step(i, c)).shared;
                  && b == Popping
                  && t.queue == (if s.shared.queue == [] then [] else s.shared.queue[1..])
                  && t.drained == s.shared.drained + if s.shared.queue == [] then [] else [s.shared.queue[0]])
  {
    RunKeepsInv(capacity, events);
    var s := Run(capacity, events);
    if s.shared.holder.Some? {
      assert Drains(s.acts[s.shared.holder.value]);
    }
  }

  /** The operation's answer obliges the host to post. */
  predicate Obliges<T>(a: Activity<T>) {
    a == Enqueued(true) || a == Finished(Drain.AfterPending)
  }

  function Obligers<T>(acts: map<Id, Activity<T>>): set<Id> {
    set i | i in acts && Obliges(acts[i])
  }

  lemma ObligersCount<T>(acts: map<Id, Activity<T>>, id: Id, a: Activity<T>)
    ensures |Obligers(acts[id := a])| == |Obligers(acts)| - One(id in acts && Obliges(acts[id])) + One(Obliges(a))
  {
    var before, after := Obligers(acts), Obligers(acts[id := a]);
    assert id in after ==> after == (after - {id}) + {id};
    assert id in before ==> before == (before - {id}) + {id};
    assert after - {id} == before - {id};
  }

  lemma FireObliges<T>(m: Shared<T>, me: Id, a: Activity<T>, c: Choice)
    requires Drains(a) ==> m.signal.InDrain()
    ensures var (n, b) := Fire(m, me, a, c); n.posts == m.posts - One(Obliges(a)) + One(Obliges(b))
  {
  }

  /** Each obligation to post is the answer of exactly one operation. */
  lemma {:induction false} EachObligationIsAnswered<T>(capacity: nat, events: seq<Event<T>>)
    ensures var s := Run(capacity, events); s.shared.posts == |Obligers(s.acts)|
    decreases |events|
  {
    if events != [] {
      var before := events[..|events| - 1];
      var s := Run(capacity, before);
      EachObligationIsAnswered(capacity, before);
      match events[|events| - 1]
      case Enqueue(id, v) => if id !in s.acts { ObligersCount(s.acts, id, Pushing(v)); }
      case Acquire(id) => if id !in s.acts { ObligersCount(s.acts, id, Acquiring); }
      case Step(id, c) =>
        if id in s.acts {
          RunKeepsInv(capacity, before);
          FireObliges(s.shared, id, s.acts[id], c);
          ObligersCount(s.acts, id, Next(s, Step(id, c)).acts[id]);
        }
    }
  }

  /** An access that asks for another drain while `drain` runs: a producer's request, or the drain's own check
      when it finds a payload it retains. */
  predicate Asks<T>(s: State<T>, e: Event<T>, drain: Id) {
    && e.Step? && e.id in s.acts
    && (s.acts[e.id].Requesting? || (e.id == drain && s.acts[drain].Checking? && s.shared.queue != []))
  }

  function From<T>(s: State<T>, events: seq<Event<T>>): State<T>
    decreases |events|
  {
    if events == [] then s else Next(From(s, events[..|events| - 1]), events[|events| - 1])
  }

  predicate Asked<T>(s: State<T>, events: seq<Event<T>>, drain: Id)
    decreases |events|
  {
    events != [] &&
      var before := events[..|events| - 1];
      Asked(s, before, drain) || Asks(From(s, before), events[|events| - 1], drain)
  }

  predicate WillPend<T>(m: Shared<T>, a: Activity<T>) {
    m.signal.DrainingPending? || a.Preserving?
  }

  lemma StepAsks<T>(s: State<T>, e: Event<T>, drain: Id)
    requires Inv(s) && drain in s.acts && Drains(s.acts[drain]) && Drains(Next(s, e).acts[drain])
    ensures var t := Next(s, e);
            WillPend(t.shared, t.acts[drain]) <==> WillPend(s.shared, s.acts[drain]) || Asks(s, e, drain)
  {
  }

  lemma NextKeepsInv<T>(s: State<T>, e: Event<T>)
    requires Inv(s)
    ensures Inv(Next(s, e))
  {
    if e.Step? && e.id in s.acts {
      StepKeepsInv(s, e.id, e.choice);
    }
  }

  predicate DrainsOrDid<T>(a: Activity<T>) {
    Drains(a) || a.Finished?
  }

  lemma {:induction false} PendsWhenAsked<T>(s: State<T>, during: seq<Event<T>>, drain: Id)
    requires Inv(s) && drain in s.acts && DrainsOrDid(s.acts[drain])
    ensures var t := From(s, during);
            && Inv(t) && drain in t.acts && DrainsOrDid(t.acts[drain])
            && (Drains(t.acts[drain]) ==>
                  && Drains(s.acts[drain])
                  && (WillPend(t.shared, t.acts[drain]) <==> WillPend(s.shared, s.acts[drain]) || Asked(s, during, drain)))
    decreases |during|
  {
    if during != [] {
      var before, e := during[..|during| - 1], during[|during| - 1];
      PendsWhenAsked(s, before, drain);
      var t := From(s, before);
      NextKeepsInv(t, e);
      if Drains(Next(t, e).acts[drain]) {
        StepAsks(t, e, drain);
      }
    }
  }

  /** Under every interleaving a drain reports that another is pending if and only if, since it was acquired, a
      producer requested one or its own check found a payload to retain. Otherwise it reports idle. */
  lemma {:induction false} PendingWasAskedFor<T>(capacity: nat, events: seq<Event<T>>, drain: Id, c: Choice, during: seq<Event<T>>, d: Choice)
    requires var s := Run(capacity, events); drain in s.acts && s.acts[drain].Acquiring? && s.shared.signal.Pending?
    requires var t := From(Next(Run(capacity, events), Step(drain, c)), during); drain in t.acts && t.acts[drain].Finishing?
    ensures var acquired := Next(Run(capacity, events), Step(drain, c));
            Next(From(acquired, during), Step(drain, d)).acts[drain]
            == Finished(if Asked(acquired, during, drain) then Drain.AfterPending else Drain.AfterIdle)
  {
    RunKeepsInv(capacity, events);
    NextKeepsInv(Run(capacity, events), Step(drain, c));
    PendsWhenAsked(Next(Run(capacity, events), Step(drain, c)), during, drain);
  }

  function Four<T>(s: State<T>, e: Event<T>): State<T> {
    Next(Next(Next(Next(s, e), e), e), e)
  }

  lemma EndsAlone<T>(s: State<T>, i: Id)
    requires Inv(s) && i in s.acts && s.acts[i].Popping?
    ensures var pends := s.shared.queue != [] || s.shared.signal.DrainingPending?;
            var t := Four(s, Step(i, Finish));
            && i in t.acts && t.acts[i] == Finished(if pends then Drain.AfterPending else Drain.AfterIdle)
            && t.shared.signal == (if pends then Drain.Pending else Drain.Idle)
            && t.shared.queue == s.shared.queue
  {
    var e: Event<T> := Step(i, Finish);
    var two := Next(Next(s, e), e);
    assert two.acts[i] == if s.shared.queue != [] then Preserving else Finishing;
    assert two.shared == s.shared;
  }

  /** A drain finished with no step of another in between pends exactly when it retained a payload or was asked
      to drain again; otherwise it leaves the signal idle. Once finished it takes no more steps. */
  lemma {:induction false} FinishAlone<T>(capacity: nat, events: seq<Event<T>>, i: Id)
    requires var s := Run(capacity, events); i in s.acts && s.acts[i].Popping?
    ensures var s := Run(capacity, events);
            var pends := s.shared.queue != [] || s.shared.signal.DrainingPending?;
            var t := Four(s, Step(i, Finish));
            && i in t.acts && t.acts[i] == Finished(if pends then Drain.AfterPending else Drain.AfterIdle)
            && t.shared.signal == (if pends then Drain.Pending else Drain.Idle)
            && t.shared.queue == s.shared.queue
  {
    RunKeepsInv(capacity, events);
    EndsAlone(Run(capacity, events), i);
  }
}
