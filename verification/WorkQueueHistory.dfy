/** The reference's answers, read off its history alone.

  `Notes` is what an observer who sees only the calls and their answers can write down. It determines
  the reference's lifecycle, its outstanding tokens, and so every answer but the payloads, which leave
  in the order they came.
*/
module WorkQueueHistory {
  import opened Wrappers
  import opened WorkQueue
  import opened WorkQueueTheorems

  datatype Notes = Notes(
    tickets: set<nat>,        // granted and neither published, handed back nor abandoned
    lease: Option<nat>,       // a normal lease granted and not finished
    owner: Option<nat>,       // a terminal lease granted and not ended
    closing: bool,            // a close was begun
    taken: bool,              // a terminal lease was granted, ended or not
    finished: bool)           // a terminal lease was finished
  {
    function State(): Lifecycle {
      if finished then Closed
      else if owner.Some? then TerminalDraining
      else if taken then TerminalPending
      else if closing then Closing
      else Open
    }
  }

  const BLANK := Notes({}, None, None, false, false, false)

  function Note<T>(n: Notes, call: Call<T>): Notes {
    match call
    case CallReserve(Ok(t)) => n.(tickets := n.tickets + {t})
    case CallPublish(_, _, Err(StaleReservation(_))) => n
    case CallPublish(t, _, _) => n.(tickets := n.tickets - {t})
    case CallAbandon(t, Ok(_)) => n.(tickets := n.tickets - {t})
    case CallBeginClose => n.(closing := true)
    case CallBeginDrain(Ok(l)) => n.(lease := Some(l))
    case CallFinishDrain(_, Ok(_)) => n.(lease := None)
    case CallBeginTerminal(Ok(l)) => n.(owner := Some(l), taken := true)
    case CallFinishTerminal(_, Ok(_)) => n.(owner := None, finished := true)
    case CallReleaseTerminal(_, Ok(_)) => n.(owner := None)
    case _ => n
  }

  function NoteAll<T>(n: Notes, calls: seq<Call<T>>): Notes
    decreases |calls|
  {
    if calls == [] then n else NoteAll(Note(n, calls[0]), calls[1..])
  }

  predicate Mirrors<T>(q: Queue<T>, n: Notes) {
    && q.state == n.State()
    && q.reservations == n.tickets && q.activeDrain == n.lease && q.activeTerminal == n.owner
    && (n.taken ==> n.closing) && (n.owner.Some? ==> n.taken) && (n.finished ==> n.taken && n.owner.None?)
  }

  lemma OneCall<T>(q: Queue<T>, n: Notes, call: Call<T>)
    requires Coherent(q) && Mirrors(q, n) && Perform(q, call).Some?
    ensures Mirrors(Perform(q, call).value, Note(n, call))
  {
  }

  /** The history determines the state, whatever calls were made and however they were answered. */
  lemma {:induction false} HistoryMirrors<T>(q: Queue<T>, n: Notes, calls: seq<Call<T>>)
    requires Coherent(q) && Mirrors(q, n) && PerformAll(q, calls).Some?
    ensures var end := PerformAll(q, calls).value; Coherent(end) && Mirrors(end, NoteAll(n, calls))
    decreases |calls|
  {
    if calls != [] {
      PerformKeeps(q, calls[0]);
      OneCall(q, n, calls[0]);
      HistoryMirrors(Perform(q, calls[0]).value, Note(n, calls[0]), calls[1..]);
    }
  }

  lemma SubmissionAnswers<T>(q: Queue<T>, n: Notes, t: nat, v: T)
    requires Coherent(q) && Mirrors(q, n)
    ensures q.Reserve().0 == Err(NotOpen(n.State())) <==> n.closing
    ensures q.Reserve().0.Ok? <==> !n.closing && q.nextReservation.Some?
    ensures q.Publish(t, v).0 == (if t !in n.tickets then Err(StaleReservation(v))
                                  else if |q.queue| == q.capacity then Err(Full(v)) else Ok(()))
    ensures q.Abandon(t).0 == (if t in n.tickets then Ok(()) else Err(StaleTicket))
  {
  }

  lemma DrainAnswers<T>(q: Queue<T>, n: Notes, l: nat)
    requires Coherent(q) && Mirrors(q, n)
    ensures q.BeginDrain().0 == Err(DrainClosed) <==> n.finished
    ensures q.BeginDrain().0 == Err(TerminalOwnership) <==> n.taken && !n.finished
    ensures q.BeginDrain().0 == Err(Busy) <==> !n.taken && n.lease.Some?
    ensures q.BeginDrain().0 == Err(Empty) <==> !n.taken && n.lease.None? && q.queue == []
    ensures q.BeginDrain().0.Ok? <==> !n.taken && n.lease.None? && q.queue != [] && q.nextLease.Some?
    ensures q.Pop(l).0 == Err(StaleLease) <==> n.lease != Some(l)
    ensures q.Pop(l).0.Ok? ==> q.Pop(l).0.value == if q.queue == [] then None else Some(q.queue[0])
    ensures q.FinishDrain(l).0 == (if n.lease == Some(l) then Ok(()) else Err(StaleLease))
  {
  }

  lemma TerminalAnswers<T>(q: Queue<T>, n: Notes, l: nat)
    requires Coherent(q) && Mirrors(q, n)
    ensures q.BeginTerminal().0 == Err(InvalidState(n.State())) <==> !n.closing || n.finished
    ensures q.BeginTerminal().0 == Err(TerminalDrainActive) <==> n.owner.Some?
    ensures q.BeginTerminal().0 == Err(ReservationsRemain(|n.tickets|)) <==> n.closing && !n.taken && n.tickets != {}
    ensures q.BeginTerminal().0 == Err(DrainActive) <==> n.closing && !n.taken && n.tickets == {} && n.lease.Some?
    ensures q.BeginTerminal().0.Ok?
       <==> && n.closing && !n.finished && n.owner.None? && q.nextTerminalLease.Some?
            && (n.taken || (n.tickets == {} && n.lease.None?))
    ensures q.PopTerminal(l).0 == Err(StaleTerminalLease) <==> n.owner != Some(l)
    ensures q.PopTerminal(l).0.Ok? ==> q.PopTerminal(l).0.value == if q.queue == [] then None else Some(q.queue[0])
    ensures q.FinishTerminal(l).0 == (if n.owner != Some(l) then Err(StaleTerminalLease)
                                      else if q.queue != [] then Err(PayloadsRemain(|q.queue|)) else Ok(()))
    ensures q.ReleaseTerminal(l).0 == (if n.owner == Some(l) then Ok(()) else Err(StaleTerminalLease))
  {
    assert !n.taken ==> (q.state.Open? || q.state.Closing?);
  }

  /** Over every history of the reference, submissions are answered by the notes alone: a reservation is granted
      exactly before close, while ids last; a ticket publishes or can be abandoned exactly while it is
      outstanding. */
  lemma {:induction false} SubmissionsFollowHistory<T>(capacity: nat, calls: seq<Call<T>>, t: nat, v: T)
    requires PerformAll(New(capacity), calls).Some?
    ensures var q, n := PerformAll(New(capacity), calls).value, NoteAll(BLANK, calls);
            && q.state == n.State()
            && (q.Reserve().0 == Err(NotOpen(n.State())) <==> n.closing)
            && (q.Reserve().0.Ok? <==> !n.closing && q.nextReservation.Some?)
            && q.Publish(t, v).0 == (if t !in n.tickets then Err(StaleReservation(v))
                                     else if |q.queue| == q.capacity then Err(Full(v)) else Ok(()))
            && q.Abandon(t).0 == (if t in n.tickets then Ok(()) else Err(StaleTicket))
  {
    HistoryMirrors(New(capacity), BLANK, calls);
    SubmissionAnswers(PerformAll(New(capacity), calls).value, NoteAll(BLANK, calls), t, v);
  }

  /** So are normal drains: one is granted exactly when no terminal owner was ever granted, none is out, and there is
      work, while ids last; exactly the lease that is out pops and finishes. */
  lemma {:induction false} DrainsFollowHistory<T>(capacity: nat, calls: seq<Call<T>>, l: nat)
    requires PerformAll(New(capacity), calls).Some?
    ensures var q, n := PerformAll(New(capacity), calls).value, NoteAll(BLANK, calls);
            && (q.BeginDrain().0 == Err(DrainClosed) <==> n.finished)
            && (q.BeginDrain().0 == Err(TerminalOwnership) <==> n.taken && !n.finished)
            && (q.BeginDrain().0 == Err(Busy) <==> !n.taken && n.lease.Some?)
            && (q.BeginDrain().0 == Err(Empty) <==> !n.taken && n.lease.None? && q.queue == [])
            && (q.BeginDrain().0.Ok? <==> !n.taken && n.lease.None? && q.queue != [] && q.nextLease.Some?)
            && (q.Pop(l).0 == Err(StaleLease) <==> n.lease != Some(l))
            && q.FinishDrain(l).0 == (if n.lease == Some(l) then Ok(()) else Err(StaleLease))
  {
    HistoryMirrors(New(capacity), BLANK, calls);
    DrainAnswers(PerformAll(New(capacity), calls).value, NoteAll(BLANK, calls), l);
  }

  /** And terminal owners: one is granted after close, once every ticket is settled and no drain is out, or again
      after one was released; each refusal names what stands in the way, with the number of tickets. */
  lemma {:induction false} OwnersFollowHistory<T>(capacity: nat, calls: seq<Call<T>>, l: nat)
    requires PerformAll(New(capacity), calls).Some?
    ensures var q, n := PerformAll(New(capacity), calls).value, NoteAll(BLANK, calls);
            && (q.BeginTerminal().0 == Err(InvalidState(n.State())) <==> !n.closing || n.finished)
            && (q.BeginTerminal().0 == Err(TerminalDrainActive) <==> n.owner.Some?)
            && (q.BeginTerminal().0 == Err(ReservationsRemain(|n.tickets|)) <==> n.closing && !n.taken && n.tickets != {})
            && (q.BeginTerminal().0 == Err(DrainActive) <==> n.closing && !n.taken && n.tickets == {} && n.lease.Some?)
            && (q.BeginTerminal().0.Ok? <==>
                  && n.closing && !n.finished && n.owner.None? && q.nextTerminalLease.Some?
                  && (n.taken || (n.tickets == {} && n.lease.None?)))
            && (q.PopTerminal(l).0 == Err(StaleTerminalLease) <==> n.owner != Some(l))
            && q.FinishTerminal(l).0 == (if n.owner != Some(l) then Err(StaleTerminalLease)
                                         else if q.queue != [] then Err(PayloadsRemain(|q.queue|)) else Ok(()))
            && q.ReleaseTerminal(l).0 == (if n.owner == Some(l) then Ok(()) else Err(StaleTerminalLease))
  {
    HistoryMirrors(New(capacity), BLANK, calls);
    TerminalAnswers(PerformAll(New(capacity), calls).value, NoteAll(BLANK, calls), l);
  }
}
