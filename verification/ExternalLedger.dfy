/** Two-counter admission of external buffers, as the interleaved steps of its atomic operations.

  A reservation counts an allocation, then its bytes, and takes the allocation back when the bytes do
  not fit. A release returns the bytes, then the allocation, then counts itself. Any number of both
  interleave; each step is one atomic update of one counter.
*/
module ExternalLedger {
  import opened Words
  import opened Wrappers

  const WORD: nat := U64_MAX + 1

  type Word = n: nat | n < WORD

  type Id = nat

  datatype Limits = Limits(allocations: Word, bytes: Word)

  datatype Ledger = Ledger(liveAllocations: Word, liveBytes: Word, deallocations: Word, limits: Limits)

  datatype Refusal = AllocationLimitReached | ByteLimitReached

  datatype Activity =
    | Reserving(length: Word)
    | Counted(length: Word)           // the allocation is counted, the bytes are not
    | RollingBack(length: Word)       // the bytes did not fit
    | Refused(why: Refusal)
    | Live(length: Word)
    | ReturningAllocation(length: Word)
    | Counting
    | Released

  /** `fetch_sub` and `fetch_add` wrap. */
  function WrappingSub(a: Word, b: Word): Word {
    if b <= a then a - b else a + WORD - b
  }

  function WrappingIncrement(a: Word): Word {
    if a + 1 == WORD then 0 else a + 1
  }

  /** `fetch_update` refuses past the limit, and when the sum does not fit the word. */
  function Admit(live: Word, more: Word, limit: Word): Option<Word> {
    if live + more >= WORD || live + more > limit then None else Some(live + more)
  }

  function Fire(l: Ledger, a: Activity): (Ledger, Activity) {
    match a
    case Reserving(n) =>
      if l.liveAllocations < l.limits.allocations
      then (l.(liveAllocations := WrappingIncrement(l.liveAllocations)), Counted(n))
      else (l, Refused(AllocationLimitReached))
    case Counted(n) =>
      (match Admit(l.liveBytes, n, l.limits.bytes)
       case Some(total) => (l.(liveBytes := total), Live(n))
       case None => (l, RollingBack(n)))
    case RollingBack(_) => (l.(liveAllocations := WrappingSub(l.liveAllocations, 1)), Refused(ByteLimitReached))
    case Live(n) => (l.(liveBytes := WrappingSub(l.liveBytes, n)), ReturningAllocation(n))
    case ReturningAllocation(_) => (l.(liveAllocations := WrappingSub(l.liveAllocations, 1)), Counting)
    case Counting => (l.(deallocations := WrappingIncrement(l.deallocations)), Released)
    case Refused(_) => (l, a)
    case Released => (l, a)
  }

  datatype State = State(ledger: Ledger, acts: map<Id, Activity>)

  datatype Event = Start(id: Id, length: Word) | Step(id: Id)

  function Next(s: State, e: Event): State {
    match e
    case Start(id, n) => if id in s.acts then s else s.(acts := s.acts[id := Reserving(n)])
    case Step(id) =>
      if id !in s.acts then s
      else
        var (l, a) := Fire(s.ledger, s.acts[id]);
        State(l, s.acts[id := a])
  }

  function New(limits: Limits): State {
    State(Ledger(0, 0, 0, limits), map[])
  }

  function Run(limits: Limits, events: seq<Event>): State
    decreases |events|
  {
    if events == [] then New(limits) else Next(Run(limits, events[..|events| - 1]), events[|events| - 1])
  }

  predicate HoldsAllocation(a: Activity) {
    a.Counted? || a.RollingBack? || a.Live? || a.ReturningAllocation?
  }

  function BytesOf(a: Activity): Word {
    if a.Live? then a.length else 0
  }

  /** The operations counted as allocations. */
  function Holders(acts: map<Id, Activity>): set<Id> {
    set i | i in acts && HoldsAllocation(acts[i])
  }

  function Done(acts: map<Id, Activity>): set<Id> {
    set i | i in acts && acts[i].Released?
  }

  /** The bytes of the buffers live in `ids`. */
  ghost function Bytes(acts: map<Id, Activity>, ids: set<Id>): nat
    requires ids <= acts.Keys
  {
    if ids == {} then 0
    else
      var i :| i in ids;
      BytesOf(acts[i]) + Bytes(acts, ids - {i})
  }

  /** Any member may be taken out first. */
  lemma {:induction false} TakeOut(acts: map<Id, Activity>, ids: set<Id>, i: Id)
    requires ids <= acts.Keys && i in ids
    ensures Bytes(acts, ids) == BytesOf(acts[i]) + Bytes(acts, ids - {i})
    decreases ids
  {
    var j :| j in ids && Bytes(acts, ids) == BytesOf(acts[j]) + Bytes(acts, ids - {j});
    if j != i {
      TakeOut(acts, ids - {j}, i);
      TakeOut(acts, ids - {i}, j);
      assert ids - {i} - {j} == ids - {j} - {i};
    }
  }

  lemma {:induction false} Elsewhere(acts: map<Id, Activity>, ids: set<Id>, i: Id, a: Activity)
    requires ids <= acts.Keys && i !in ids
    ensures Bytes(acts[i := a], ids) == Bytes(acts, ids)
    decreases ids
  {
    if ids != {} {
      var j :| j in ids;
      TakeOut(acts, ids, j);
      TakeOut(acts[i := a], ids, j);
      Elsewhere(acts, ids - {j}, i, a);
    }
  }

  ghost function AllBytes(acts: map<Id, Activity>): nat {
    Bytes(acts, acts.Keys)
  }

  ghost predicate Inv(s: State) {
    var l := s.ledger;
    && l.liveAllocations == |Holders(s.acts)| <= l.limits.allocations
    && l.liveBytes == AllBytes(s.acts) <= l.limits.bytes
    && l.deallocations == |Done(s.acts)| % WORD
  }

  /** One operation moves: the totals change by what it gives and takes. */
  lemma TotalBytes(acts: map<Id, Activity>, i: Id, a: Activity)
    requires i in acts
    ensures AllBytes(acts[i := a]) + BytesOf(acts[i]) == AllBytes(acts) + BytesOf(a)
    ensures BytesOf(acts[i]) <= AllBytes(acts)
  {
    var after := acts[i := a];
    assert after.Keys == acts.Keys;
    TakeOut(acts, acts.Keys, i);
    TakeOut(after, acts.Keys, i);
    Elsewhere(acts, acts.Keys - {i}, i, a);
  }

  lemma Moved(before: set<Id>, after: set<Id>, i: Id)
    requires after - {i} == before - {i}
    ensures |after| + One(i in before) == |before| + One(i in after)
  {
    assert i in before ==> before == (before - {i}) + {i};
    assert i in after ==> after == (after - {i}) + {i};
  }

  lemma TotalCounts(acts: map<Id, Activity>, i: Id, a: Activity)
    requires i in acts
    ensures |Holders(acts[i := a])| + One(HoldsAllocation(acts[i])) == |Holders(acts)| + One(HoldsAllocation(a))
    ensures |Done(acts[i := a])| + One(acts[i].Released?) == |Done(acts)| + One(a.Released?)
  {
    Moved(Holders(acts), Holders(acts[i := a]), i);
    Moved(Done(acts), Done(acts[i := a]), i);
  }

  lemma Arrival(acts: map<Id, Activity>, i: Id, a: Activity)
    requires i !in acts && a.Reserving?
    ensures AllBytes(acts[i := a]) == AllBytes(acts)
    ensures Holders(acts[i := a]) == Holders(acts) && Done(acts[i := a]) == Done(acts)
  {
    var after := acts[i := a];
    assert after.Keys == acts.Keys + {i};
    TakeOut(after, after.Keys, i);
    assert after.Keys - {i} == acts.Keys;
    Elsewhere(acts, acts.Keys, i, a);
  }

  /** The two subtractions never wrap: the count, and the bytes, are there to be given back. */
  predicate Covered(l: Ledger, a: Activity) {
    && (a.RollingBack? || a.ReturningAllocation? ==> l.liveAllocations > 0)
    && (a.Live? ==> l.liveBytes >= a.length)
  }

  lemma OneMore(n: nat, w: Word)
    requires w == n % WORD
    ensures WrappingIncrement(w) == (n + 1) % WORD
  {
  }

  lemma StepKeepsInv(s: State, e: Event)
    requires Inv(s)
    ensures Inv(Next(s, e))
  {
    match e
    case Start(id, n) =>
      if id !in s.acts {
        Arrival(s.acts, id, Reserving(n));
      }
    case Step(id) =>
      if id in s.acts {
        FireKeepsTotals(s, id);
      }
  }

  lemma FireKeepsTotals(s: State, id: Id)
    requires Inv(s) && id in s.acts
    ensures Covered(s.ledger, s.acts[id])
    ensures var t := Next(s, Step(id));
            && t.ledger.liveAllocations == |Holders(t.acts)| <= t.ledger.limits.allocations
            && t.ledger.liveBytes == AllBytes(t.acts) <= t.ledger.limits.bytes
            && t.ledger.deallocations == |Done(t.acts)| % WORD
  {
    var a := s.acts[id];
    TotalBytes(s.acts, id, Fire(s.ledger, a).1);
    TotalCounts(s.acts, id, Fire(s.ledger, a).1);
    assert HoldsAllocation(a) ==> id in Holders(s.acts);
    OneMore(|Done(s.acts)|, s.ledger.deallocations);
  }

  lemma {:induction false} RunKeepsInv(limits: Limits, events: seq<Event>)
    ensures Inv(Run(limits, events)) && Run(limits, events).ledger.limits == limits
    decreases |events|
  {
    if events != [] {
      RunKeepsInv(limits, events[..|events| - 1]);
      StepKeepsInv(Run(limits, events[..|events| - 1]), events[|events| - 1]);
    }
  }

  /** Under every interleaving the counters are exactly what the operations in progress and the live
      buffers hold, and neither limit is ever exceeded. */
  lemma {:induction false} LimitsHold(limits: Limits, events: seq<Event>)
    ensures var s := Run(limits, events);
            && s.ledger.liveAllocations == |Holders(s.acts)| <= limits.allocations
            && s.ledger.liveBytes == AllBytes(s.acts) <= limits.bytes
            && s.ledger.deallocations == |Done(s.acts)| % WORD
  {
    RunKeepsInv(limits, events);
  }

  /** No counter wraps on the way down. */
  lemma {:induction false} NothingWraps(limits: Limits, events: seq<Event>, id: Id)
    requires id in Run(limits, events).acts
    ensures var s := Run(limits, events);
            var l, a := s.ledger, s.acts[id];
            && (a.RollingBack? || a.ReturningAllocation? ==> Fire(l, a).0.liveAllocations == l.liveAllocations - 1)
            && (a.Live? ==> Fire(l, a).0.liveBytes == l.liveBytes - a.length)
            && (a.Reserving? && !Fire(l, a).1.Refused? ==> Fire(l, a).0.liveAllocations == l.liveAllocations + 1)
  {
    RunKeepsInv(limits, events);
    FireKeepsTotals(Run(limits, events), id);
  }

  predicate Quiet(a: Activity) {
    a.Refused? || a.Live? || a.Released?
  }

  function LiveBuffers(acts: map<Id, Activity>): set<Id> {
    set i | i in acts && acts[i].Live?
  }

  /** Once every operation has ended, the refused and the released ones have left no trace in the live
      counters: they count the live buffers and nothing else. */
  lemma {:induction false} RejectionsCancel(limits: Limits, events: seq<Event>)
    requires forall i :: i in Run(limits, events).acts ==> Quiet(Run(limits, events).acts[i])
    ensures var s := Run(limits, events);
            && s.ledger.liveAllocations == |LiveBuffers(s.acts)|
            && s.ledger.liveBytes == Bytes(s.acts, LiveBuffers(s.acts))
  {
    RunKeepsInv(limits, events);
    var acts := Run(limits, events).acts;
    assert Holders(acts) == LiveBuffers(acts);
    OnlyLive(acts, acts.Keys);
    assert LiveBuffers(acts) * acts.Keys == LiveBuffers(acts);
  }

  lemma {:induction false} OnlyLive(acts: map<Id, Activity>, ids: set<Id>)
    requires ids <= acts.Keys
    ensures Bytes(acts, LiveBuffers(acts) * ids) == Bytes(acts, ids)
    decreases ids
  {
    if ids != {} {
      var i :| i in ids;
      OnlyLive(acts, ids - {i});
      TakeOut(acts, ids, i);
      var live := LiveBuffers(acts) * ids;
      if acts[i].Live? {
        TakeOut(acts, live, i);
        assert live - {i} == LiveBuffers(acts) * (ids - {i});
      } else {
        assert live == LiveBuffers(acts) * (ids - {i});
      }
    }
  }

  /** A reservation is turned away for its allocation exactly when operations and buffers together
      hold every allocation, and for its bytes exactly when they do not fit beside the live ones. It
      is told which, and is live with the length it asked for otherwise. */
  lemma {:induction false} RefusedExactly(limits: Limits, events: seq<Event>, id: Id)
    requires id in Run(limits, events).acts
    ensures var s := Run(limits, events);
            var b := Fire(s.ledger, s.acts[id]).1;
            && (s.acts[id].Reserving? ==>
                  b == if |Holders(s.acts)| == limits.allocations then Refused(AllocationLimitReached) else Counted(s.acts[id].length))
            && (s.acts[id].Counted? ==>
                  b == if AllBytes(s.acts) + s.acts[id].length > limits.bytes then RollingBack(s.acts[id].length) else Live(s.acts[id].length))
            && (s.acts[id].RollingBack? ==> b == Refused(ByteLimitReached))
  {
    RunKeepsInv(limits, events);
  }

  lemma {:induction false} OneStep(limits: Limits, events: seq<Event>, e: Event)
    ensures Run(limits, events + [e]) == Next(Run(limits, events), e)
  {
    assert (events + [e])[..|events|] == events;
  }

  /** A buffer of `n` bytes is reserved, and its release stands between its two subtractions. */
  function Releasing(n: Word): seq<Event> {
    [Start(0, n)] + [Step(0)] + [Step(0)] + [Step(0)]
  }

  lemma ReleasingState(n: Word, limit: Word)
    requires n <= limit
    ensures Run(Limits(1, limit), Releasing(n)) == State(Ledger(1, 0, 0, Limits(1, limit)), map[0 := ReturningAllocation(n)])
  {
    var limits := Limits(1, limit);
    assert [Start(0, n)][..0] == [];
    assert Run(limits, [Start(0, n)]).acts == map[0 := Reserving(n)];
    OneStep(limits, [Start(0, n)], Step(0));
    assert Run(limits, [Start(0, n)] + [Step(0)]).acts == map[0 := Counted(n)];
    OneStep(limits, [Start(0, n)] + [Step(0)], Step(0));
    assert Run(limits, [Start(0, n)] + [Step(0)] + [Step(0)]).acts == map[0 := Live(n)];
    OneStep(limits, [Start(0, n)] + [Step(0)] + [Step(0)], Step(0));
  }

  /** So a buffer being released on another thread, its bytes already returned, can still cost a
      reservation its admission: here one allocation is allowed, no buffer is live and no byte is
      counted, and an empty buffer is refused. */
  lemma ReleaseInProgressBlocks(n: Word, limit: Word)
    requires n <= limit
    ensures var s := Run(Limits(1, limit), Releasing(n) + [Start(1, 0)] + [Step(1)]);
            && s.acts == map[0 := ReturningAllocation(n), 1 := Refused(AllocationLimitReached)]
            && LiveBuffers(s.acts) == {} && s.ledger.liveBytes == 0
  {
    var limits := Limits(1, limit);
    ReleasingState(n, limit);
    OneStep(limits, Releasing(n), Start(1, 0));
    OneStep(limits, Releasing(n) + [Start(1, 0)], Step(1));
  }

  /** One step of the release later it is admitted. */
  lemma ReleaseFinishedAdmits(n: Word, limit: Word)
    requires n <= limit
    ensures var s := Run(Limits(1, limit), Releasing(n) + [Step(0)] + [Start(1, 0)] + [Step(1)] + [Step(1)]);
            s.acts == map[0 := Counting, 1 := Live(0)]
  {
    var limits := Limits(1, limit);
    ReleasingState(n, limit);
    OneStep(limits, Releasing(n), Step(0));
    OneStep(limits, Releasing(n) + [Step(0)], Start(1, 0));
    OneStep(limits, Releasing(n) + [Step(0)] + [Start(1, 0)], Step(1));
    OneStep(limits, Releasing(n) + [Step(0)] + [Start(1, 0)] + [Step(1)], Step(1));
  }
}
