/** The coalesced drain request: five states in one byte. */
module Drain {

  datatype Signal = Idle | Pending | Draining | DrainingPending | Closed {

    /** A drain permit is out. */
    predicate InDrain() {
      Draining? || DrainingPending?
    }

    function Request(): (Request, Signal) {
      match this
      case Idle => (Scheduled, Pending)
      case Pending | DrainingPending => (Coalesced, this)
      case Draining => (Coalesced, DrainingPending)
      case Closed => (RequestClosed, Closed)
    }

    function Acquire(): (Acquire, Signal) {
      match this
      case Idle => (AcquireIdle, this)
      case Pending => (Acquired, Draining)
      case Draining | DrainingPending => (Busy, this)
      case Closed => (AcquireClosed, this)
    }

    function Close(): (Close, Signal) {
      if this == Closed then (AlreadyClosed, this) else (ClosedFrom(this), Closed)
    }

    /** Completion by the permit holder; the last three states would mean a lost permit. */
    function Finish(): (After, Signal) {
      match this
      case Draining => (AfterIdle, Idle)
      case DrainingPending => (AfterPending, Pending)
      case Closed | Idle | Pending => (AfterClosed, this)
    }
  }

  /** What the byte remembers: whether a drain has been asked for, and whether one is running. */
  datatype Flags = Flags(asked: bool, running: bool)

  function FlagsOf(s: Signal): Flags {
    Flags(s.Pending? || s.DrainingPending?, s.InDrain())
  }

  /** Until it is closed the signal is two flags. A request sets the first and schedules exactly when both were
      clear; an acquire trades the first for the second; completion clears the second and reports the
      first. Every refusal changes nothing. */
  lemma SignalIsTwoFlags(s: Signal)
    requires !s.Closed?
    ensures var f := FlagsOf(s);
            var (requested, afterRequest) := s.Request();
            var (acquired, afterAcquire) := s.Acquire();
            var (finished, afterFinish) := s.Finish();
            && !afterRequest.Closed? && FlagsOf(afterRequest) == f.(asked := true)
            && requested == (if f == Flags(false, false) then Scheduled else Coalesced)
            && !afterAcquire.Closed? && FlagsOf(afterAcquire) == (if f == Flags(true, false) then Flags(false, true) else f)
            && acquired == (if f.running then Busy else if f.asked then Acquired else AcquireIdle)
            && (f.running ==> !afterFinish.Closed? && FlagsOf(afterFinish) == f.(running := false))
            && (f.running ==> finished == if f.asked then AfterPending else AfterIdle)
            && s.Close() == (ClosedFrom(s), Closed)
  {
  }

  /** Distinct signals have distinct flags, and a closed one answers so for ever. */
  lemma FlagsAreExact(s: Signal, t: Signal)
    ensures !s.Closed? && !t.Closed? && FlagsOf(s) == FlagsOf(t) ==> s == t
    ensures s.Closed? ==> s.Request() == (RequestClosed, s) && s.Acquire() == (AcquireClosed, s)
                          && s.Close() == (AlreadyClosed, s) && s.Finish() == (AfterClosed, s)
  {
  }

  datatype Request = Scheduled | Coalesced | RequestClosed
  datatype Acquire = AcquireIdle | Acquired | Busy | AcquireClosed
  datatype After = AfterIdle | AfterPending | AfterClosed
  datatype Close = ClosedFrom(prior: Signal) | AlreadyClosed

  const IDLE: nat := 0
  const PENDING: nat := 1
  const DRAINING: nat := 2
  const DRAINING_PENDING: nat := 3
  const CLOSED: nat := 4

  class DrainSignal {
    var state: nat

    ghost predicate Valid()
      reads this
    {
      state <= CLOSED
    }

    ghost function View(): Signal
      requires Valid()
      reads this
    {
      [Idle, Pending, Draining, DrainingPending, Closed][state]
    }

    constructor ()
      ensures Valid() && View() == Idle
    {
      state := IDLE;
    }

    static method StateFromRaw(value: nat) returns (s: Signal)
      requires value <= CLOSED
      ensures s == [Idle, Pending, Draining, DrainingPending, Closed][value]
    {
      match value {
        case 0 => s := Idle;
        case 1 => s := Pending;
        case 2 => s := Draining;
        case 3 => s := DrainingPending;
        case 4 => s := Closed;
        case _ => assert false;
      }
    }

    method Request() returns (r: Request)
      requires Valid()
      modifies this
      ensures Valid() && (r, View()) == old(View()).Request()
    {
      if state == IDLE {
        state := PENDING;
        return Scheduled;
      } else if state == PENDING || state == DRAINING_PENDING {
        return Coalesced;
      } else if state == DRAINING {
        state := DRAINING_PENDING;
        return Coalesced;
      }
      return RequestClosed;
    }

    method Acquire() returns (r: Acquire)
      requires Valid()
      modifies this
      ensures Valid() && (r, View()) == old(View()).Acquire()
    {
      if state == IDLE {
        return AcquireIdle;
      } else if state == PENDING {
        state := DRAINING;
        return Acquired;
      } else if state == DRAINING || state == DRAINING_PENDING {
        return Busy;
      }
      return AcquireClosed;
    }

    method Close() returns (r: Close)
      requires Valid()
      modifies this
      ensures Valid() && (r, View()) == old(View()).Close()
    {
      if state == CLOSED {
        return AlreadyClosed;
      }
      var prior := StateFromRaw(state);
      state := CLOSED;
      return ClosedFrom(prior);
    }

    method Finish() returns (r: After)
      requires Valid()
      modifies this
      ensures Valid() && (r, View()) == old(View()).Finish()
    {
      if state == DRAINING {
        state := IDLE;
        return AfterIdle;
      } else if state == DRAINING_PENDING {
        state := PENDING;
        return AfterPending;
      }
      return AfterClosed;
    }
  }
}
