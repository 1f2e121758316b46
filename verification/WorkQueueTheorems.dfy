/** What the sequential reference itself guarantees, whatever calls are made on it. */
module WorkQueueTheorems {
  import opened Words
  import opened Wrappers
  import opened WorkQueue

  predicate Issued(id: nat, next: Option<nat>) {
    1 <= id <= U64_MAX && (next.Some? ==> id < next.value)
  }

  /** Terminal ownership exists exactly while draining terminally, it excludes producers and normal
    drains, a closed queue is empty, and every token outstanding has been issued. */
  predicate Coherent<T>(q: Queue<T>) {
    && |q.queue| <= q.capacity
    && (q.activeTerminal.Some? <==> q.state.TerminalDraining?)
    && (!q.state.Open? && !q.state.Closing? ==> q.reservations == {} && q.activeDrain.None?)
    && (q.state.Closed? ==> q.queue == [])
    && (forall t :: t in q.reservations ==> Issued(t, q.nextReservation))
    && (q.activeDrain.Some? ==> Issued(q.activeDrain.value, q.nextLease))
    && (q.activeTerminal.Some? ==> Issued(q.activeTerminal.value, q.nextTerminalLease))
    && Bounded(q.nextReservation) && Bounded(q.nextLease) && Bounded(q.nextTerminalLease)
  }

  predicate Bounded(next: Option<nat>) {
    next.Some? ==> 1 <= next.value <= U64_MAX
  }

  lemma NewIsCoherent<T>(capacity: nat)
    ensures Coherent(New<T>(capacity))
  {
  }

  /** A ticket is never issued while it is outstanding. */
  lemma ReserveKeeps<T>(q: Queue<T>)
    requires Coherent(q)
    ensures Coherent(q.Reserve().1)
    ensures q.Reserve().0.Ok? ==> q.Reserve().0.value !in q.reservations
  {
  }

  lemma AbandonKeeps<T>(q: Queue<T>, ticket: nat)
    requires Coherent(q)
    ensures Coherent(q.Abandon(ticket).1)
  {
  }

  lemma SubmissionKeeps<T>(q: Queue<T>, ticket: nat, payload: T)
    requires Coherent(q)
    ensures Coherent(q.Publish(ticket, payload).1) && Coherent(q.BeginClose())
  {
  }

  lemma DrainKeeps<T>(q: Queue<T>, lease: nat)
    requires Coherent(q)
    ensures Coherent(q.BeginDrain().1) && Coherent(q.Pop(lease).1) && Coherent(q.FinishDrain(lease).1)
  {
  }

  lemma TerminalKeeps<T>(q: Queue<T>, lease: nat)
    requires Coherent(q)
    ensures Coherent(q.BeginTerminal().1) && Coherent(q.PopTerminal(lease).1)
    ensures Coherent(q.FinishTerminal(lease).1) && Coherent(q.ReleaseTerminal(lease).1)
  {
  }

  lemma PerformKeeps<T>(q: Queue<T>, call: Call<T>)
    requires Coherent(q) && Perform(q, call).Some?
    ensures Coherent(Perform(q, call).value)
  {
    match call
    case CallReserve(_) => ReserveKeeps(q);
    case CallPublish(t, v, _) => SubmissionKeeps(q, t, v);
    case CallAbandon(t, _) => AbandonKeeps(q, t);
    case CallBeginClose =>
    case CallBeginDrain(_) => DrainKeeps(q, 0);
    case CallPop(l, _) => DrainKeeps(q, l);
    case CallFinishDrain(l, _) => DrainKeeps(q, l);
    case CallBeginTerminal(_) => TerminalKeeps(q, 0);
    case CallPopTerminal(l, _) => TerminalKeeps(q, l);
    case CallFinishTerminal(l, _) => TerminalKeeps(q, l);
    case CallReleaseTerminal(l, _) => TerminalKeeps(q, l);
  }

  function PublishedBy<T>(call: Call<T>): seq<T> {
    if call.CallPublish? && call.published.Ok? then [call.payload] else []
  }

  function PoppedBy<T>(call: Call<T>): seq<T> {
    match call
    case CallPop(_, Ok(Some(v))) => [v]
    case CallPopTerminal(_, Ok(Some(v))) => [v]
    case _ => []
  }

  function Published<T>(calls: seq<Call<T>>): seq<T> {
    if calls == [] then [] else PublishedBy(calls[0]) + Published(calls[1..])
  }

  function Popped<T>(calls: seq<Call<T>>): seq<T> {
    if calls == [] then [] else PoppedBy(calls[0]) + Popped(calls[1..])
  }

  lemma OneCallIsFifo<T>(q: Queue<T>, call: Call<T>)
    requires Perform(q, call).Some?
    ensures q.queue + PublishedBy(call) == PoppedBy(call) + Perform(q, call).value.queue
  {
  }

  /** Along any history the reference stays coherent. */
  lemma {:induction false} ReferenceIsCoherent<T>(q: Queue<T>, calls: seq<Call<T>>)
    requires Coherent(q) && PerformAll(q, calls).Some?
    ensures Coherent(PerformAll(q, calls).value)
    decreases |calls|
  {
    if calls != [] {
      PerformKeeps(q, calls[0]);
      ReferenceIsCoherent(Perform(q, calls[0]).value, calls[1..]);
    }
  }

  /** And the payloads published leave in the order they came, each once, through normal or terminal pops. */
  lemma {:induction false} ReferenceIsFifo<T>(q: Queue<T>, calls: seq<Call<T>>)
    requires PerformAll(q, calls).Some?
    ensures q.queue + Published(calls) == Popped(calls) + PerformAll(q, calls).value.queue
    decreases |calls|
  {
    if calls != [] {
      var r := Perform(q, calls[0]).value;
      OneCallIsFifo(q, calls[0]);
      ReferenceIsFifo(r, calls[1..]);
      Reassociate(q.queue, PublishedBy(calls[0]), Published(calls[1..]),
                  PoppedBy(calls[0]), r.queue, Popped(calls[1..]), PerformAll(r, calls[1..]).value.queue);
    }
  }

  lemma Reassociate<T>(a: seq<T>, b: seq<T>, c: seq<T>, d: seq<T>, e: seq<T>, f: seq<T>, g: seq<T>)
    requires a + b == d + e && e + c == f + g
    ensures a + (b + c) == (d + f) + g
  {
    assert a + (b + c) == (a + b) + c;
    assert (d + e) + c == d + (e + c);
    assert d + (f + g) == (d + f) + g;
  }

  /** From an empty reference every history is coherent and first in, first out. */
  lemma {:induction false} ReferenceRuns<T>(capacity: nat, calls: seq<Call<T>>)
    requires PerformAll(New(capacity), calls).Some?
    ensures var q := PerformAll(New(capacity), calls).value;
            Coherent(q) && Published(calls) == Popped(calls) + q.queue
  {
    NewIsCoherent<T>(capacity);
    ReferenceIsCoherent(New(capacity), calls);
    ReferenceIsFifo(New(capacity), calls);
    assert [] + Published(calls) == Published(calls);
  }

  /** Whatever a publication answers, it settles its ticket: the payload is last in the queue or handed back,
      and the ticket is good for nothing more. */
  lemma PublishSettles<T>(q: Queue<T>, ticket: nat, payload: T, other: T)
    requires ticket in q.reservations
    ensures var (r, after) := q.Publish(ticket, payload);
            && after.Publish(ticket, other) == (Err(StaleReservation(other)), after)
            && after.Abandon(ticket).0 == Err(StaleTicket)
            && (if r.Ok? then after.queue == q.queue + [payload] else r.error == Full(payload) && after.queue == q.queue)
            && (r.Err? <==> |q.queue| == q.capacity)
  {
  }

  predicate Grants<T>(call: Call<T>) {
    match call
    case CallReserve(r) => r.Ok?
    case CallBeginDrain(r) => r.Ok?
    case CallBeginTerminal(r) => r.Ok?
    case _ => false
  }

  /** The id that a granted ticket or lease carries is not one the sequence has left behind. */
  predicate NotUsed(id: nat, next: Option<nat>) {
    next.Some? && id >= next.value
  }

  /** A history never grants a ticket older than its start would, so no ticket is granted twice. */
  lemma {:induction false} TicketsAreNew<T>(q: Queue<T>, calls: seq<Call<T>>, k: nat)
    requires PerformAll(q, calls).Some? && k < |calls| && calls[k].CallReserve? && calls[k].reserved.Ok?
    ensures NotUsed(calls[k].reserved.value, q.nextReservation)
    decreases |calls|
  {
    if k > 0 {
      TicketsAreNew(Perform(q, calls[0]).value, calls[1..], k - 1);
    }
  }

  lemma {:induction false} TicketsNeverRepeat<T>(q: Queue<T>, calls: seq<Call<T>>, j: nat, k: nat)
    requires PerformAll(q, calls).Some? && j < k < |calls|
    requires calls[j].CallReserve? && calls[j].reserved.Ok? && calls[k].CallReserve? && calls[k].reserved.Ok?
    ensures calls[j].reserved.value != calls[k].reserved.value
    decreases |calls|
  {
    var after := Perform(q, calls[0]).value;
    if j == 0 {
      TicketsAreNew(after, calls[1..], k - 1);
    } else {
      TicketsNeverRepeat(after, calls[1..], j - 1, k - 1);
    }
  }

  /** While a normal lease is out, no other lease of either kind is granted. */
  lemma {:induction false} DrainExcludes<T>(q: Queue<T>, lease: nat, calls: seq<Call<T>>)
    requires Coherent(q) && q.activeDrain == Some(lease)
    requires PerformAll(q, calls).Some? && CallFinishDrain(lease, Ok(())) !in calls
    ensures PerformAll(q, calls).value.activeDrain == Some(lease)
    ensures forall k :: 0 <= k < |calls| && !calls[k].CallReserve? ==> !Grants(calls[k])
    decreases |calls|
  {
    if calls != [] {
      PerformKeeps(q, calls[0]);
      DrainExcludes(Perform(q, calls[0]).value, lease, calls[1..]);
    }
  }

  predicate Ends<T>(call: Call<T>, lease: nat) {
    || (call.CallFinishTerminal? && call.terminalLease == lease && call.finished.Ok?)
    || (call.CallReleaseTerminal? && call.terminalLease == lease && call.released.Ok?)
  }

  /** While a terminal owner is out, nothing at all is granted and nothing is published. */
  lemma {:induction false} TerminalExcludes<T>(q: Queue<T>, lease: nat, calls: seq<Call<T>>)
    requires Coherent(q) && q.activeTerminal == Some(lease)
    requires PerformAll(q, calls).Some? && forall k :: 0 <= k < |calls| ==> !Ends(calls[k], lease)
    ensures PerformAll(q, calls).value.activeTerminal == Some(lease)
    ensures forall k :: 0 <= k < |calls| ==> !Grants(calls[k]) && PublishedBy(calls[k]) == []
    decreases |calls|
  {
    if calls != [] {
      PerformKeeps(q, calls[0]);
      assert !Ends(calls[0], lease);
      TerminalExcludes(Perform(q, calls[0]).value, lease, calls[1..]);
    }
  }

  /** A finished reference is closed and empty for ever: it grants nothing and accepts nothing. */
  lemma {:induction false} ClosedForEver<T>(q: Queue<T>, calls: seq<Call<T>>)
    requires Coherent(q) && q.state.Closed? && PerformAll(q, calls).Some?
    ensures var end := PerformAll(q, calls).value; end.state.Closed? && end.queue == []
    ensures forall k :: 0 <= k < |calls| ==> !Grants(calls[k]) && PublishedBy(calls[k]) == [] && PoppedBy(calls[k]) == []
    decreases |calls|
  {
    if calls != [] {
      PerformKeeps(q, calls[0]);
      ClosedForEver(Perform(q, calls[0]).value, calls[1..]);
    }
  }
}
