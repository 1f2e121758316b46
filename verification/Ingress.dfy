/** Producer and drain admission: a phase and a permit count packed into one machine word.

  `Gate` is what the word means. The class `IngressGate` works on the packed word with
  the arithmetic of the source (masking, a plain increment, a wrapping `fetch_sub`) and
  every method is proved to act on the word exactly as the functions below act on the gate.
*/
module Ingress {

  // `usize` is 64 bits wide, two of which hold the phase.
  const UNIT: nat := 0x4000_0000_0000_0000
  const RESERVATION_MASK: nat := UNIT - 1
  const CLOSING: nat := UNIT
  const SEALED: nat := 2 * UNIT
  const WORD_LIMIT: nat := 4 * UNIT

  datatype Phase = Open | Closing | Sealed

  datatype Gate = Gate(phase: Phase, count: nat) {
    /** What every reachable word satisfies: the count fits its field and a sealed gate has no permit. */
    predicate Valid() {
      && count <= RESERVATION_MASK
      && (phase.Sealed? ==> count == 0)
    }

    function Reserve(): (ReserveResult, Gate) {
      match phase
      case Open =>
        if count == RESERVATION_MASK
        then (ReservationSpaceExhausted, this)
        else (Granted, this.(count := count + 1))
      case p => (NotOpen(p), this)
    }

    function BeginClose(): (CloseResult, Gate) {
      match phase
      case Open => (Started(count), this.(phase := Closing))
      case Closing => (AlreadyClosing(count), this)
      case Sealed => (AlreadySealed, this)
    }

    function TrySeal(): (SealResult, Gate) {
      match phase
      case Open => (StillOpen, this)
      case Closing => if count > 0 then (ReservationsRemain(count), this) else (SealedNow, this.(phase := Sealed))
      case Sealed => (SealedNow, this)
    }

    function Settle(): Gate
      requires count > 0
    {
      this.(count := count - 1)
    }
  }

  const OPEN_GATE := Gate(Open, 0)

  datatype ReserveResult = Granted | NotOpen(phase: Phase) | ReservationSpaceExhausted

  datatype CloseResult =
    | Started(inFlight: nat)
    | AlreadyClosing(inFlight: nat)
    | AlreadySealed

  datatype SealResult = SealedNow | StillOpen | ReservationsRemain(count: nat)

  function PhaseIndex(p: Phase): nat {
    match p
    case Open => 0
    case Closing => 1
    case Sealed => 2
  }

  /** Phases only advance. */
  predicate Advances(before: Gate, after: Gate) {
    PhaseIndex(before.phase) <= PhaseIndex(after.phase)
  }

  function Pack(g: Gate): nat {
    PhaseIndex(g.phase) * UNIT + g.count
  }

  /** Distinct gates have distinct words, so the packed word loses nothing. */
  lemma PackIsInjective(a: Gate, b: Gate)
    requires a.Valid() && b.Valid()
    ensures Pack(a) < WORD_LIMIT
    ensures Pack(a) == Pack(b) <==> a == b
  {
  }

  class IngressGate {
    var state: nat

    ghost predicate Valid()
      reads this
    {
      && state <= SEALED
    }

    ghost function View(): (g: Gate)
      requires Valid()
      reads this
      ensures g.Valid() && Pack(g) == state
    {
      Gate(if state / UNIT == 0 then Open else if state / UNIT == 1 then Closing else Sealed, state % UNIT)
    }

    constructor ()
      ensures Valid() && View() == OPEN_GATE
    {
      state := 0;
    }

    static function ReservationCount(value: nat): nat {
      value % UNIT
    }

    /** Decodes the phase bits; the fourth bit pattern would be a panic in the source. */
    static method StateFromRaw(value: nat) returns (p: Phase)
      requires value <= SEALED
      ensures PhaseIndex(p) == value / UNIT
    {
      match value / UNIT {
        case 0 => p := Open;
        case 1 => p := Closing;
        case 2 => p := Sealed;
        case _ => assert false;
      }
    }

    method Reserve() returns (r: ReserveResult)
      requires Valid()
      modifies this
      ensures Valid() && (r, View()) == old(View()).Reserve()
    {
      var current := state;
      var phase := StateFromRaw(current);
      if phase == Open {
        if ReservationCount(current) == RESERVATION_MASK {
          return ReservationSpaceExhausted;
        }
        state := current + 1;
        return Granted;
      }
      return NotOpen(phase);
    }

    method BeginClose() returns (r: CloseResult)
      requires Valid()
      modifies this
      ensures Valid() && (r, View()) == old(View()).BeginClose()
    {
      var current := state;
      var phase := StateFromRaw(current);
      match phase {
        case Open =>
          state := CLOSING + ReservationCount(current);
          return Started(ReservationCount(current));
        case Closing => return AlreadyClosing(ReservationCount(current));
        case Sealed => return AlreadySealed;
      }
    }

    method TrySeal() returns (r: SealResult)
      requires Valid()
      modifies this
      ensures Valid() && (r, View()) == old(View()).TrySeal()
    {
      var current := state;
      var phase := StateFromRaw(current);
      match phase {
        case Open => return StillOpen;
        case Closing =>
          var count := ReservationCount(current);
          if count != 0 {
            return ReservationsRemain(count);
          }
          state := SEALED;
          return SealedNow;
        case Sealed => return SealedNow;
      }
    }

    /** `fetch_sub(1)`: wraps at zero, so only a live permit keeps it from borrowing from the phase. */
    method SettleReservation()
      requires Valid() && View().count > 0
      modifies this
      ensures Valid() && View() == old(View()).Settle()
    {
      state := (state + WORD_LIMIT - 1) % WORD_LIMIT;
    }
  }
}
