/** Running one attachment-bound record through one host entry. */
module Dispatch {
  import opened Wrappers
  import opened WorkOwner
  import MailboxTheorems
  import WorkOwnerTheorems

  /** A host that is asked for an entry calls the closure some number of times and then answers. Its
    contract is to call it once and succeed, or not to call it and fail. */
  datatype Host<E> = Host(attachment: AttachmentId, calls: nat, failure: Option<E>) {
    /** What the signature already enforces: an `FnOnce` runs at most once, and only it can produce the
      generic result that a success has to return. */
    predicate WellTyped() {
      calls <= 1 && (failure.None? ==> calls == 1)
    }
  }

  /** What one call of the closure finds in its slot. */
  datatype Invocation = Ran | MissingPayload

  datatype DispatchError<T, E> =
    | AttachmentMismatch(work: Work<T>, active: AttachmentId)
    | Entry(work: Work<T>, error: E)
    | HostContractViolation(active: AttachmentId, retained: Option<Work<T>>)

  function IntoWork<T, E>(e: DispatchError<T, E>): Option<Work<T>> {
    match e
    case AttachmentMismatch(w, _) => Some(w)
    case Entry(w, _) => Some(w)
    case HostContractViolation(_, retained) => retained
  }

  /** What an entry runs of a record, in the attachment its host reports. */
  function RunsOf<T, E>(work: Work<T>, host: Host<E>): seq<(AttachmentId, T)> {
    if host.attachment == work.attachment && host.calls > 0 then [(work.attachment, work.payload)] else []
  }

  /** The entry: the first call takes the record out of its slot and runs it, a later one finds nothing. */
  method WithBackend<T, E>(host: Host<E>, work: Work<T>)
      returns (r: Result<Invocation, E>, slot: Option<Work<T>>, ran: seq<(AttachmentId, T)>)
    ensures slot == if host.calls == 0 then Some(work) else None
    ensures ran == if host.calls == 0 then [] else [(host.attachment, work.payload)]
    ensures r == match host.failure case Some(e) => Err(e) case None => Ok(if host.calls == 1 then Ran else MissingPayload)
    ensures host.WellTyped() ==> r != Ok(MissingPayload)
  {
    slot, ran := Some(work), [];
    var last := MissingPayload;
    for i := 0 to host.calls
      invariant slot == if i == 0 then Some(work) else None
      invariant ran == if i == 0 then [] else [(host.attachment, work.payload)]
      invariant last == if i == 1 then Ran else MissingPayload
    {
      match slot {
        case Some(w) => slot, ran, last := None, ran + [(host.attachment, w.payload)], Ran;
        case None => last := MissingPayload;
      }
    }
    match host.failure {
      case Some(e) => r := Err(e);
      case None => r := Ok(last);
    }
  }

  /** Whatever the host does, the record is run once, in a host reporting the attachment it was bound to,
    or it is handed back: never both, and never neither. Success means that the host kept its
    contract. A host within its types can break it in one way only, by running the record and then
    failing: exactly that is reported as a violation, and the record is not handed back. */
  method DispatchWork<T, E>(work: Work<T>, host: Host<E>)
      returns (r: Result<(), DispatchError<T, E>>, ran: seq<(AttachmentId, T)>)
    ensures ran == RunsOf(work, host)
    ensures ran == [] <==> r.Err? && IntoWork(r.error) == Some(work)
    ensures r.Ok? <==> host.attachment == work.attachment && host.calls == 1 && host.failure.None?
    ensures r == Err(AttachmentMismatch(work, host.attachment)) <==> host.attachment != work.attachment
    ensures r.Err? && r.error.Entry? <==> host.attachment == work.attachment && host.calls == 0 && host.failure.Some?
    ensures host.WellTyped() ==>
              (r == Err(HostContractViolation(host.attachment, None)) <==>
               host.attachment == work.attachment && host.calls == 1 && host.failure.Some?)
    ensures host.WellTyped() && r.Err? && r.error.HostContractViolation? ==> r.error.retained.None?
  {
    if work.attachment != host.attachment {
      return Err(AttachmentMismatch(work, host.attachment)), [];
    }
    var result, slot, log := WithBackend(host, work);
    match result {
      case Ok(Ran) => return Ok(()), log;
      case Ok(MissingPayload) => return Err(HostContractViolation(host.attachment, slot)), log;
      case Err(error) =>
        match slot {
          case Some(kept) => return Err(Entry(kept, error)), log;
          case None => return Err(HostContractViolation(host.attachment, None)), log;
        }
    }
  }

  /** Dispatches the front record of a drained queue, if there is one. */
  method DispatchNext<T, E>(queue: seq<Work<T>>, host: Host<E>)
      returns (r: Result<bool, DispatchError<T, E>>, ran: seq<(AttachmentId, T)>, rest: seq<Work<T>>)
    ensures queue == [] ==> r == Ok(false) && ran == [] && rest == []
    ensures queue != [] ==>
              && rest == queue[1..]
              && ran == RunsOf(queue[0], host)
              && (ran == [] <==> r.Err? && IntoWork(r.error) == Some(queue[0]))
  {
    if queue == [] {
      return Ok(false), [], [];
    }
    var outcome, log := DispatchWork(queue[0], host);
    rest := queue[1..];
    match outcome {
      case Ok(_) => return Ok(true), log, rest;
      case Err(error) => return Err(error), log, rest;
    }
  }

  /** The records popped from a mailbox, by normal drains and then by terminal owners. */
  function PoppedFrom<T>(b: Box<T>): seq<Work<T>> {
    var h := b.Shared().history;
    seq(|h.drained + h.recovered|, i requires 0 <= i < |h.drained + h.recovered| => (h.drained + h.recovered)[i].payload)
  }

  /** Popped records are dispatched at home or not at all: after a replacement, a host of the current
    attachment runs none that was popped from an earlier mailbox, however long its caller kept it. */
  lemma {:induction false} PoppedWorkStaysHome<T, E>(attachment: AttachmentId, capacity: nat, steps: seq<Step<T>>, k: nat, i: nat, host: Host<E>)
    requires k < |RunOwner(attachment, capacity, steps).boxes|
    requires i < |PoppedFrom(RunOwner(attachment, capacity, steps).boxes[k])|
    requires host.attachment == RunOwner(attachment, capacity, steps).registration.current
    ensures var o := RunOwner(attachment, capacity, steps);
            RunsOf(PoppedFrom(o.boxes[k])[i], host) != [] <==> host.calls > 0 && k == |o.boxes| - 1
  {
    var o := RunOwner(attachment, capacity, steps);
    var m := o.boxes[k].Shared();
    MailboxTheorems.PayloadsAreConserved(o.boxes[k].capacity, o.boxes[k].events);
    assert m.history.accepted[i].payload == PoppedFrom(o.boxes[k])[i];
    WorkOwnerTheorems.PayloadsAreBound(attachment, capacity, steps, k, i);
    WorkOwnerTheorems.EpochsIncrease(attachment, capacity, steps);
  }
}
