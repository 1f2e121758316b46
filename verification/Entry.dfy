/** Thread-affine entry accounting for a host-owned attachment. */
module Entry {
  import opened Wrappers

  const U32_MAX: nat := 0xFFFF_FFFF

  datatype HostState = Active | Draining | Invalid | Destroyed

  datatype FinalEntryPolicy = Guaranteed | BestEffort | NeverAvailable

  datatype FinalEntryOutcome = Completed | Unavailable

  datatype Operation = BeginCleanup | FinishDrain | Destroy

  datatype GateError =
    | NotActive(state: HostState)
    | DepthLimit
    | EntriesRemain(count: nat)
    | CleanupInProgress
    | FinalEntryRequired
    | FinalEntryUnavailable
    | FinalEntryComplete
    | InvalidTransition(state: HostState, operation: Operation)

  function StateIndex(s: HostState): nat {
    match s
    case Active => 0
    case Draining => 1
    case Invalid => 2
    case Destroyed => 3
  }

  datatype Gate = Gate(
    state: HostState,
    entries: nat,
    cleanup: bool,
    finalEntry: Option<FinalEntryOutcome>,
    limit: nat,
    policy: FinalEntryPolicy)
  {
    function TryEnter(): (Result<(), GateError>, Gate) {
      if !state.Active? then (Err(NotActive(state)), this)
      else if entries >= limit then (Err(DepthLimit), this)
      else (Ok(()), this.(entries := entries + 1))
    }

    function RequestDrain(): Gate {
      if state.Active? then this.(state := Draining) else this
    }

    function TryBeginCleanup(): (Result<(), GateError>, Gate) {
      if !state.Draining? then (Err(InvalidTransition(state, BeginCleanup)), this)
      else if entries != 0 then (Err(EntriesRemain(entries)), this)
      else if policy.NeverAvailable? then (Err(FinalEntryUnavailable), this)
      else if finalEntry.Some? then (Err(FinalEntryComplete), this)
      else if cleanup then (Err(CleanupInProgress), this)
      else (Ok(()), this.(cleanup := true))
    }

    function TryFinish(): (Result<FinalEntryOutcome, GateError>, Gate) {
      var outcome := if finalEntry.Some? then finalEntry.value else Unavailable;
      if cleanup then (Err(CleanupInProgress), this)
      else match state
        case Invalid => (Ok(outcome), this)
        case Draining =>
          if entries != 0 then (Err(EntriesRemain(entries)), this)
          else if policy.Guaranteed? && finalEntry.None? then (Err(FinalEntryRequired), this)
          else (Ok(outcome), this.(finalEntry := Some(outcome), state := Invalid))
        case s => (Err(InvalidTransition(s, FinishDrain)), this)
    }

    function MarkDestroyed(): (Result<(), GateError>, Gate) {
      match state
      case Destroyed => (Ok(()), this)
      case Invalid => (Ok(()), this.(state := Destroyed))
      case s => (Err(InvalidTransition(s, Destroy)), this)
    }

    function Exit(): Gate
      requires entries > 0
    {
      this.(entries := entries - 1)
    }

    function EndCleanup(completed: bool): Gate {
      this.(cleanup := false, finalEntry := if completed then Some(Completed) else finalEntry)
    }
  }

  function NewGate(limit: nat, policy: FinalEntryPolicy): Gate {
    Gate(Active, 0, false, None, limit, policy)
  }

  /** Its methods change the cells as the source does. The counter is 32 bits wide, so an entry or an
    exit that wrapped would break the contracts. */
  class EntryGate {
    var state: HostState
    var entries: nat
    var cleanup: bool
    var finalEntry: Option<FinalEntryOutcome>
    const limit: nat
    const policy: FinalEntryPolicy

    ghost predicate Valid()
      reads this
    {
      entries <= limit <= U32_MAX
    }

    ghost function View(): Gate
      reads this
    {
      Gate(state, entries, cleanup, finalEntry, limit, policy)
    }

    constructor (limit: nat, policy: FinalEntryPolicy)
      requires 0 < limit <= U32_MAX
      ensures Valid() && View() == NewGate(limit, policy)
    {
      state, entries, cleanup, finalEntry := Active, 0, false, None;
      this.limit, this.policy := limit, policy;
    }

    method TryEnter() returns (r: Result<(), GateError>)
      requires Valid()
      modifies this
      ensures Valid() && (r, View()) == old(View()).TryEnter()
    {
      if state != Active {
        return Err(NotActive(state));
      }
      if entries >= limit {
        return Err(DepthLimit);
      }
      entries := (entries + 1) % (U32_MAX + 1);
      return Ok(());
    }

    method RequestDrain()
      requires Valid()
      modifies this
      ensures Valid() && View() == old(View()).RequestDrain()
    {
      if state == Active {
        state := Draining;
      }
    }

    method TryBeginCleanup() returns (r: Result<(), GateError>)
      requires Valid()
      modifies this
      ensures Valid() && (r, View()) == old(View()).TryBeginCleanup()
    {
      if state != Draining {
        return Err(InvalidTransition(state, BeginCleanup));
      }
      if entries != 0 {
        return Err(EntriesRemain(entries));
      }
      if policy == NeverAvailable {
        return Err(FinalEntryUnavailable);
      }
      if finalEntry.Some? {
        return Err(FinalEntryComplete);
      }
      if cleanup {
        return Err(CleanupInProgress);
      }
      cleanup := true;
      return Ok(());
    }

    method TryFinish() returns (r: Result<FinalEntryOutcome, GateError>)
      requires Valid()
      modifies this
      ensures Valid() && (r, View()) == old(View()).TryFinish()
    {
      if cleanup {
        return Err(CleanupInProgress);
      }
      var outcome := if finalEntry.Some? then finalEntry.value else Unavailable;
      match state {
        case Invalid => return Ok(outcome);
        case Draining =>
          if entries != 0 {
            return Err(EntriesRemain(entries));
          }
          if policy == Guaranteed && finalEntry.None? {
            return Err(FinalEntryRequired);
          }
          finalEntry := Some(outcome);
          state := Invalid;
          return Ok(outcome);
        case Active => return Err(InvalidTransition(state, FinishDrain));
        case Destroyed => return Err(InvalidTransition(state, FinishDrain));
      }
    }

    method MarkDestroyed() returns (r: Result<(), GateError>)
      requires Valid()
      modifies this
      ensures Valid() && (r, View()) == old(View()).MarkDestroyed()
    {
      match state {
        case Destroyed => return Ok(());
        case Invalid =>
          state := Destroyed;
          return Ok(());
        case Active => return Err(InvalidTransition(state, Destroy));
        case Draining => return Err(InvalidTransition(state, Destroy));
      }
    }

    /** Drop of an entry guard. */
    method Exit()
      requires Valid() && entries > 0
      modifies this
      ensures Valid() && View() == old(View()).Exit()
    {
      entries := (entries + U32_MAX) % (U32_MAX + 1);
    }

    /** Drop of a cleanup guard, after `complete` if `completed`. */
    method EndCleanup(completed: bool)
      requires Valid()
      modifies this
      ensures Valid() && View() == old(View()).EndCleanup(completed)
    {
      if completed {
        finalEntry := Some(Completed);
      }
      cleanup := false;
    }
  }
}
