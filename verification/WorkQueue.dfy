/** The repository's sequential reference for bounded work admission and terminal ownership.

  `Queue` is a state of the reference and its member functions are the reference's
  operations; the class `WorkQueueModel` is the mutable form of the source, proved
  operation by operation against them.
*/
module WorkQueue {
  import opened Words
  import opened Wrappers

  datatype Lifecycle = Open | Closing | TerminalPending | TerminalDraining | Closed

  datatype ReserveError = NotOpen(state: Lifecycle) | ReservationSpaceExhausted
  datatype PublishError<+T> = StaleReservation(payload: T) | Full(payload: T)
  datatype AbandonError = StaleTicket
  datatype DrainError = Empty | Busy | DrainClosed | TerminalOwnership | StaleLease | LeaseSpaceExhausted
  datatype TerminalError =
    | InvalidState(state: Lifecycle)
    | ReservationsRemain(count: nat)
    | DrainActive
    | TerminalDrainActive
    | TerminalLeaseSpaceExhausted
    | StaleTerminalLease
    | PayloadsRemain(count: nat)

  /** The id that follows `n` in a `NonZeroU64` sequence that starts at 1 and never wraps. */
  function Successor(n: nat): Option<nat> {
    if n < U64_MAX then Some(n + 1) else None
  }

  datatype Queue<T> = Queue(
    capacity: nat,
    state: Lifecycle,
    queue: seq<T>,
    reservations: set<nat>,
    activeDrain: Option<nat>,
    activeTerminal: Option<nat>,
    nextReservation: Option<nat>,
    nextLease: Option<nat>,
    nextTerminalLease: Option<nat>)
  {
    function Reserve(): (Result<nat, ReserveError>, Queue<T>) {
      if state != Open then (Err(NotOpen(state)), this)
      else match nextReservation
        case None => (Err(ReservationSpaceExhausted), this)
        case Some(n) =>
          (Ok(n), this.(nextReservation := Successor(n), reservations := reservations + {n}))
    }

    function Publish(ticket: nat, payload: T): (Result<(), PublishError<T>>, Queue<T>) {
      if ticket !in reservations then (Err(StaleReservation(payload)), this)
      else
        var settled := this.(reservations := reservations - {ticket});
        if |queue| == capacity then (Err(Full(payload)), settled)
        else (Ok(()), settled.(queue := queue + [payload]))
    }

    function Abandon(ticket: nat): (Result<(), AbandonError>, Queue<T>) {
      if ticket in reservations then (Ok(()), this.(reservations := reservations - {ticket}))
      else (Err(StaleTicket), this)
    }

    function BeginClose(): Queue<T> {
      if state == Open then this.(state := Closing) else this
    }

    function BeginDrain(): (Result<nat, DrainError>, Queue<T>) {
      if state == Closed then (Err(DrainClosed), this)
      else if state.TerminalPending? || state.TerminalDraining? then (Err(TerminalOwnership), this)
      else if activeDrain.Some? then (Err(Busy), this)
      else if queue == [] then (Err(Empty), this)
      else match nextLease
        case None => (Err(LeaseSpaceExhausted), this)
        case Some(n) => (Ok(n), this.(nextLease := Successor(n), activeDrain := Some(n)))
    }

    function Pop(lease: nat): (Result<Option<T>, DrainError>, Queue<T>) {
      if activeDrain != Some(lease) then (Err(StaleLease), this)
      else if queue == [] then (Ok(None), this)
      else (Ok(Some(queue[0])), this.(queue := queue[1..]))
    }

    function FinishDrain(lease: nat): (Result<(), DrainError>, Queue<T>) {
      if activeDrain != Some(lease) then (Err(StaleLease), this)
      else (Ok(()), this.(activeDrain := None))
    }

    function BeginTerminal(): (Result<nat, TerminalError>, Queue<T>) {
      if state.Open? || state.Closed? then (Err(InvalidState(state)), this)
      else if state.TerminalDraining? then (Err(TerminalDrainActive), this)
      else if state.Closing? && reservations != {} then (Err(ReservationsRemain(|reservations|)), this)
      else if state.Closing? && activeDrain.Some? then (Err(DrainActive), this)
      else match nextTerminalLease
        case None => (Err(TerminalLeaseSpaceExhausted), this)
        case Some(n) =>
          (Ok(n), this.(nextTerminalLease := Successor(n), activeTerminal := Some(n), state := TerminalDraining))
    }

    function PopTerminal(lease: nat): (Result<Option<T>, TerminalError>, Queue<T>) {
      if activeTerminal != Some(lease) then (Err(StaleTerminalLease), this)
      else if queue == [] then (Ok(None), this)
      else (Ok(Some(queue[0])), this.(queue := queue[1..]))
    }

    function FinishTerminal(lease: nat): (Result<(), TerminalError>, Queue<T>) {
      if activeTerminal != Some(lease) then (Err(StaleTerminalLease), this)
      else if queue != [] then (Err(PayloadsRemain(|queue|)), this)
      else (Ok(()), this.(activeTerminal := None, state := Closed))
    }

    function ReleaseTerminal(lease: nat): (Result<(), TerminalError>, Queue<T>) {
      if activeTerminal != Some(lease) then (Err(StaleTerminalLease), this)
      else (Ok(()), this.(activeTerminal := None, state := TerminalPending))
    }
  }

  function New<T>(capacity: nat): Queue<T> {
    Queue(capacity, Open, [], {}, None, None, Some(1), Some(1), Some(1))
  }

  /** One observed call on the reference, together with the answer it gave. */
  datatype Call<T> =
    | CallReserve(reserved: Result<nat, ReserveError>)
    | CallPublish(ticket: nat, payload: T, published: Result<(), PublishError<T>>)
    | CallAbandon(ticket: nat, abandoned: Result<(), AbandonError>)
    | CallBeginClose
    | CallBeginDrain(drain: Result<nat, DrainError>)
    | CallPop(drainLease: nat, popped: Result<Option<T>, DrainError>)
    | CallFinishDrain(drainLease: nat, drained: Result<(), DrainError>)
    | CallBeginTerminal(terminal: Result<nat, TerminalError>)
    | CallPopTerminal(terminalLease: nat, recovered: Result<Option<T>, TerminalError>)
    | CallFinishTerminal(terminalLease: nat, finished: Result<(), TerminalError>)
    | CallReleaseTerminal(terminalLease: nat, released: Result<(), TerminalError>)

  /** The state after a call, provided the reference gives exactly the recorded answer. */
  ghost function Perform<T>(q: Queue<T>, call: Call<T>): Option<Queue<T>> {
    match call
    case CallReserve(r) => if q.Reserve().0 == r then Some(q.Reserve().1) else None
    case CallPublish(t, v, r) => if q.Publish(t, v).0 == r then Some(q.Publish(t, v).1) else None
    case CallAbandon(t, r) => if q.Abandon(t).0 == r then Some(q.Abandon(t).1) else None
    case CallBeginClose => Some(q.BeginClose())
    case CallBeginDrain(r) => if q.BeginDrain().0 == r then Some(q.BeginDrain().1) else None
    case CallPop(l, r) => if q.Pop(l).0 == r then Some(q.Pop(l).1) else None
    case CallFinishDrain(l, r) => if q.FinishDrain(l).0 == r then Some(q.FinishDrain(l).1) else None
    case CallBeginTerminal(r) => if q.BeginTerminal().0 == r then Some(q.BeginTerminal().1) else None
    case CallPopTerminal(l, r) => if q.PopTerminal(l).0 == r then Some(q.PopTerminal(l).1) else None
    case CallFinishTerminal(l, r) => if q.FinishTerminal(l).0 == r then Some(q.FinishTerminal(l).1) else None
    case CallReleaseTerminal(l, r) => if q.ReleaseTerminal(l).0 == r then Some(q.ReleaseTerminal(l).1) else None
  }

  ghost function PerformAll<T>(q: Queue<T>, calls: seq<Call<T>>): Option<Queue<T>>
    decreases |calls|
  {
    if calls == [] then Some(q)
    else match Perform(q, calls[0])
      case None => None
      case Some(next) => PerformAll(next, calls[1..])
  }

  lemma {:induction false} PerformAllAppends<T>(q: Queue<T>, a: seq<Call<T>>, b: seq<Call<T>>)
    requires PerformAll(q, a).Some?
    ensures PerformAll(q, a + b) == PerformAll(PerformAll(q, a).value, b)
    decreases |a|
  {
    if a == [] {
      assert a + b == b;
    } else {
      assert (a + b)[1..] == a[1..] + b;
      PerformAllAppends(Perform(q, a[0]).value, a[1..], b);
    }
  }

  class WorkQueueModel<T> {
    const capacity: nat
    var state: Lifecycle
    var queue: seq<T>
    var reservations: set<nat>
    var activeDrain: Option<nat>
    var activeTerminal: Option<nat>
    var nextReservation: Option<nat>
    var nextLease: Option<nat>
    var nextTerminalLease: Option<nat>

    ghost function View(): Queue<T>
      reads this
    {
      Queue(capacity, state, queue, reservations, activeDrain, activeTerminal,
            nextReservation, nextLease, nextTerminalLease)
    }

    constructor (capacity: nat)
      ensures View() == New(capacity)
    {
      this.capacity := capacity;
      state, queue, reservations := Open, [], {};
      activeDrain, activeTerminal := None, None;
      nextReservation, nextLease, nextTerminalLease := Some(1), Some(1), Some(1);
    }

    method Reserve() returns (r: Result<nat, ReserveError>)
      modifies this
      ensures (r, View()) == old(View()).Reserve()
    {
      if state != Open {
        return Err(NotOpen(state));
      }
      match nextReservation {
        case None => return Err(ReservationSpaceExhausted);
        case Some(n) =>
          nextReservation := Successor(n);
          reservations := reservations + {n};
          return Ok(n);
      }
    }

    method Publish(ticket: nat, payload: T) returns (r: Result<(), PublishError<T>>)
      modifies this
      ensures (r, View()) == old(View()).Publish(ticket, payload)
    {
      if ticket !in reservations {
        return Err(StaleReservation(payload));
      }
      reservations := reservations - {ticket};
      if |queue| == capacity {
        return Err(Full(payload));
      }
      queue := queue + [payload];
      return Ok(());
    }

    method Abandon(ticket: nat) returns (r: Result<(), AbandonError>)
      modifies this
      ensures (r, View()) == old(View()).Abandon(ticket)
    {
      if ticket in reservations {
        reservations := reservations - {ticket};
        return Ok(());
      }
      return Err(StaleTicket);
    }

    method BeginClose()
      modifies this
      ensures View() == old(View()).BeginClose()
    {
      if state == Open {
        state := Closing;
      }
    }

    method BeginDrain() returns (r: Result<nat, DrainError>)
      modifies this
      ensures (r, View()) == old(View()).BeginDrain()
    {
      match state {
        case Closed => return Err(DrainClosed);
        case TerminalPending => return Err(TerminalOwnership);
        case TerminalDraining => return Err(TerminalOwnership);
        case Open =>
        case Closing =>
      }
      if activeDrain.Some? {
        return Err(Busy);
      }
      if |queue| == 0 {
        return Err(Empty);
      }
      match nextLease {
        case None => return Err(LeaseSpaceExhausted);
        case Some(n) =>
          nextLease := Successor(n);
          activeDrain := Some(n);
          return Ok(n);
      }
    }

    method Pop(lease: nat) returns (r: Result<Option<T>, DrainError>)
      modifies this
      ensures (r, View()) == old(View()).Pop(lease)
    {
      if activeDrain != Some(lease) {
        return Err(StaleLease);
      }
      var head := PopFront();
      return Ok(head);
    }

    method FinishDrain(lease: nat) returns (r: Result<(), DrainError>)
      modifies this
      ensures (r, View()) == old(View()).FinishDrain(lease)
    {
      if activeDrain != Some(lease) {
        return Err(StaleLease);
      }
      activeDrain := None;
      return Ok(());
    }

    method BeginTerminal() returns (r: Result<nat, TerminalError>)
      modifies this
      ensures (r, View()) == old(View()).BeginTerminal()
    {
      match state {
        case Open => return Err(InvalidState(state));
        case Closed => return Err(InvalidState(state));
        case TerminalDraining => return Err(TerminalDrainActive);
        case Closing =>
          if reservations != {} {
            return Err(ReservationsRemain(|reservations|));
          }
          if activeDrain.Some? {
            return Err(DrainActive);
          }
        case TerminalPending =>
      }
      match nextTerminalLease {
        case None => return Err(TerminalLeaseSpaceExhausted);
        case Some(n) =>
          nextTerminalLease := Successor(n);
          activeTerminal := Some(n);
          state := TerminalDraining;
          return Ok(n);
      }
    }

    method PopTerminal(lease: nat) returns (r: Result<Option<T>, TerminalError>)
      modifies this
      ensures (r, View()) == old(View()).PopTerminal(lease)
    {
      if activeTerminal != Some(lease) {
        return Err(StaleTerminalLease);
      }
      var head := PopFront();
      return Ok(head);
    }

    method FinishTerminal(lease: nat) returns (r: Result<(), TerminalError>)
      modifies this
      ensures (r, View()) == old(View()).FinishTerminal(lease)
    {
      if activeTerminal != Some(lease) {
        return Err(StaleTerminalLease);
      }
      if |queue| != 0 {
        return Err(PayloadsRemain(|queue|));
      }
      activeTerminal := None;
      state := Closed;
      return Ok(());
    }

    method ReleaseTerminal(lease: nat) returns (r: Result<(), TerminalError>)
      modifies this
      ensures (r, View()) == old(View()).ReleaseTerminal(lease)
    {
      if activeTerminal != Some(lease) {
        return Err(StaleTerminalLease);
      }
      activeTerminal := None;
      state := TerminalPending;
      return Ok(());
    }

    /** `VecDeque::pop_front`. */
    method PopFront() returns (head: Option<T>)
      modifies this`queue
      ensures head == if old(queue) == [] then None else Some(old(queue)[0])
      ensures queue == if old(queue) == [] then [] else old(queue)[1..]
    {
      if |queue| == 0 {
        return None;
      }
      head := Some(queue[0]);
      queue := queue[1..];
    }
  }
}
