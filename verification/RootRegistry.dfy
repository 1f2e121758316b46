/** The generational registry of persistent roots, with its free list and the pending-release
  list threaded through the slots.
*/
module RootRegistry {
  import opened Words
  import opened Wrappers

  datatype RootId = RootId(slot: nat, generation: nat)

  datatype Release = Live | Pending(next: Option<nat>)

  datatype RootSlot<V> = RootSlot(generation: nat, value: Option<V>, release: Release)

  datatype RootError = PersistentRootLimitReached

  function SaturatingSuccessor(n: nat): nat {
    if n < U64_MAX then n + 1 else n
  }

  function ValueOf<V>(s: RootSlot<V>): seq<V> {
    if s.value.Some? then [s.value.value] else []
  }

  /** The values held, in slot order. */
  function Values<V>(slots: seq<RootSlot<V>>): seq<V> {
    if slots == [] then [] else Values(slots[..|slots| - 1]) + ValueOf(slots[|slots| - 1])
  }

  predicate Free<V>(s: RootSlot<V>) {
    s.value.None? && s.generation < U64_MAX
  }

  function FreeCount<V>(slots: seq<RootSlot<V>>): nat {
    if slots == [] then 0
    else FreeCount(slots[..|slots| - 1]) + One(Free(slots[|slots| - 1]))
  }

  /** Slots whose generation has run out; they are never used again. */
  function ExhaustedCount<V>(slots: seq<RootSlot<V>>): nat {
    if slots == [] then 0
    else
      var last := slots[|slots| - 1];
      ExhaustedCount(slots[..|slots| - 1]) + One(last.value.None? && !Free(last))
  }

  lemma {:induction false} SlotsArePartitioned<V>(slots: seq<RootSlot<V>>)
    ensures |Values(slots)| + FreeCount(slots) + ExhaustedCount(slots) == |slots|
  {
    if slots != [] {
      SlotsArePartitioned(slots[..|slots| - 1]);
    }
  }

  lemma Exchange<V>(a: multiset<V>, b: multiset<V>, c: multiset<V>, d: multiset<V>, e: multiset<V>)
    requires a + b == c + d
    ensures (a + e) + b == (c + e) + d
  {
    assert (a + e) + b == (a + b) + e;
    assert (c + e) + d == (c + d) + e;
  }

  lemma Cancel<V>(a: multiset<V>, b: multiset<V>, c: multiset<V>)
    requires a + c == b + c
    ensures a == b
  {
    assert a == (a + c) - c;
    assert b == (b + c) - c;
  }

  /** Replacing one slot trades its value and its place in the counts. */
  lemma {:induction false} UpdateValues<V>(slots: seq<RootSlot<V>>, i: nat, s: RootSlot<V>)
    requires i < |slots|
    ensures multiset(Values(slots[i := s])) + multiset(ValueOf(slots[i])) == multiset(Values(slots)) + multiset(ValueOf(s))
  {
    var n := |slots| - 1;
    var after := slots[i := s];
    var last := ValueOf(after[n]);
    if i == n {
      assert after[..n] == slots[..n];
      assert multiset(Values(after)) == multiset(Values(slots[..n])) + multiset(last);
      assert multiset(Values(slots)) == multiset(Values(slots[..n])) + multiset(ValueOf(slots[n]));
    } else {
      assert after[..n] == slots[..n][i := s];
      UpdateValues(slots[..n], i, s);
      Exchange(multiset(Values(after[..n])), multiset(ValueOf(slots[i])), multiset(Values(slots[..n])), multiset(ValueOf(s)), multiset(last));
      assert multiset(Values(after)) == multiset(Values(after[..n])) + multiset(last);
      assert multiset(Values(slots)) == multiset(Values(slots[..n])) + multiset(last);
    }
  }

  lemma {:induction false} UpdateCounts<V>(slots: seq<RootSlot<V>>, i: nat, s: RootSlot<V>)
    requires i < |slots|
    ensures |Values(slots[i := s])| + One(slots[i].value.Some?) == |Values(slots)| + One(s.value.Some?)
    ensures FreeCount(slots[i := s]) + One(Free(slots[i])) == FreeCount(slots) + One(Free(s))
  {
    var n := |slots| - 1;
    if i == n {
      assert slots[i := s][..n] == slots[..n];
    } else {
      assert slots[i := s][..n] == slots[..n][i := s];
      UpdateCounts(slots[..n], i, s);
    }
  }

  lemma {:induction false} AppendSlot<V>(slots: seq<RootSlot<V>>, s: RootSlot<V>)
    ensures Values(slots + [s]) == Values(slots) + ValueOf(s)
    ensures FreeCount(slots + [s]) == FreeCount(slots) + One(Free(s))
  {
    assert (slots + [s])[..|slots|] == slots;
  }

  /** A stack of slot indices without repetition, its top last. */
  predicate Distinct(free: seq<nat>)
    decreases |free|
  {
    free != [] ==> free[|free| - 1] !in free[..|free| - 1] && Distinct(free[..|free| - 1])
  }

  function Elements(s: seq<nat>): set<nat> {
    set i | i in s
  }

  function FreeSet<V>(slots: seq<RootSlot<V>>): set<nat> {
    set i: nat | i < |slots| && Free(slots[i])
  }

  function PendingSet<V>(slots: seq<RootSlot<V>>): set<nat> {
    set i: nat | i < |slots| && slots[i].release.Pending?
  }

  /** The free list names every reusable slot once. */
  predicate FreeList<V>(slots: seq<RootSlot<V>>, free: seq<nat>) {
    && Distinct(free)
    && |free| == FreeCount(slots)
    && Elements(free) == FreeSet(slots)
  }

  /** The links stored in the slots, followed from `head`, spell out `chain` without repetition. */
  predicate Threaded<V>(slots: seq<RootSlot<V>>, head: Option<nat>, chain: seq<nat>)
    decreases |chain|
  {
    if chain == [] then head == None
    else
      var i := chain[0];
      && head == Some(i)
      && i < |slots| && slots[i].release.Pending?
      && i !in chain[1..]
      && Threaded(slots, slots[i].release.next, chain[1..])
  }

  /** The pending list names every pending slot once. */
  predicate Linked<V>(slots: seq<RootSlot<V>>, head: Option<nat>, chain: seq<nat>) {
    && Threaded(slots, head, chain)
    && Elements(chain) == PendingSet(slots)
  }

  predicate SlotOk<V>(s: RootSlot<V>) {
    && 1 <= s.generation <= U64_MAX
    && (s.value.Some? ==> s.generation < U64_MAX)
    && (s.release.Pending? ==> s.value.Some?)
  }

  predicate AllOk<V>(slots: seq<RootSlot<V>>) {
    forall i :: 0 <= i < |slots| ==> SlotOk(slots[i])
  }

  /** An issued id is older than its slot, or names the slot's present occupant; every occupant has one. */
  predicate Issued<V>(slots: seq<RootSlot<V>>, issued: set<RootId>) {
    && (forall id :: id in issued ==> Dated(slots, id))
    && Occupants(slots) <= issued
  }

  predicate Dated<V>(slots: seq<RootSlot<V>>, id: RootId) {
    && id.slot < |slots|
    && id.generation <= slots[id.slot].generation
    && (id.generation == slots[id.slot].generation ==> slots[id.slot].value.Some?)
  }

  function Occupants<V>(slots: seq<RootSlot<V>>): set<RootId> {
    set i: nat | i < |slots| && slots[i].value.Some? :: RootId(i, slots[i].generation)
  }

  predicate Structured<V>(slots: seq<RootSlot<V>>, free: seq<nat>, head: Option<nat>, chain: seq<nat>, issued: set<RootId>) {
    && AllOk(slots)
    && FreeList(slots, free)
    && Linked(slots, head, chain)
    && Issued(slots, issued)
  }

  /** The id names the slot's present, unreleased occupant. */
  predicate Resolves<V>(slots: seq<RootSlot<V>>, id: RootId) {
    && id.slot < |slots|
    && slots[id.slot].generation == id.generation
    && slots[id.slot].release.Live?
    && slots[id.slot].value.Some?
  }

  /** What the issued ids resolve to. */
  ghost function TableOf<V>(slots: seq<RootSlot<V>>, issued: set<RootId>): map<RootId, V> {
    map id | id in issued && Resolves(slots, id) :: slots[id.slot].value.value
  }

  /** The values along the pending list. */
  function ChainValues<V>(slots: seq<RootSlot<V>>, chain: seq<nat>): seq<V>
  {
    if chain == [] then []
    else (if chain[0] < |slots| then ValueOf(slots[chain[0]]) else []) + ChainValues(slots, chain[1..])
  }

  /** The two arrays differ at most in slot `i`, which may be a new last one. */
  predicate OnlySlot<V(==)>(before: seq<RootSlot<V>>, after: seq<RootSlot<V>>, i: nat) {
    && i < |after|
    && (|after| == |before| || (|after| == |before| + 1 && i == |before|))
    && (forall j :: 0 <= j < |before| && j != i ==> after[j] == before[j])
  }

  /** An empty or new slot takes a value: the id it gets was never issued. */
  lemma IssueFresh<V>(before: seq<RootSlot<V>>, after: seq<RootSlot<V>>, i: nat, issued: set<RootId>, value: V)
    requires Issued(before, issued) && OnlySlot(before, after, i)
    requires after[i].value == Some(value) && after[i].release.Live?
    requires i < |before| ==> before[i].value.None? && before[i].generation == after[i].generation
    ensures var id := RootId(i, after[i].generation);
            && id !in issued
            && Issued(after, issued + {id})
            && TableOf(after, issued + {id}) == TableOf(before, issued)[id := value]
  {
    var id := RootId(i, after[i].generation);
    assert id in issued ==> Dated(before, id);
    forall j | j in issued
      ensures Dated(after, j)
      ensures Resolves(after, j) <==> Resolves(before, j)
      ensures Resolves(before, j) ==> after[j.slot] == before[j.slot]
    {
      assert Dated(before, j);
    }
    assert Occupants(after) == Occupants(before) + {id} by {
      forall j | j in Occupants(after)
        ensures j in Occupants(before) + {id}
      {
      }
    }
  }

  /** An occupied slot is emptied and its generation advanced: its id never resolves again. */
  lemma RetireOccupant<V>(before: seq<RootSlot<V>>, after: seq<RootSlot<V>>, i: nat, issued: set<RootId>)
    requires Issued(before, issued) && OnlySlot(before, after, i) && |after| == |before|
    requires before[i].value.Some? && after[i].value.None? && after[i].generation > before[i].generation
    ensures Issued(after, issued)
    ensures TableOf(after, issued) == TableOf(before, issued) - {RootId(i, before[i].generation)}
  {
    forall j | j in issued
      ensures Dated(after, j)
      ensures Resolves(after, j) <==> Resolves(before, j) && j != RootId(i, before[i].generation)
    {
      assert Dated(before, j);
    }
  }

  lemma {:induction false} ThreadUnchanged<V>(before: seq<RootSlot<V>>, after: seq<RootSlot<V>>, i: nat, head: Option<nat>, chain: seq<nat>)
    requires Threaded(before, head, chain) && OnlySlot(before, after, i) && i !in chain
    ensures Threaded(after, head, chain)
    ensures ChainValues(after, chain) == ChainValues(before, chain)
    decreases |chain|
  {
    if chain != [] {
      ThreadUnchanged(before, after, i, before[chain[0]].release.next, chain[1..]);
    }
  }

  lemma {:induction false} ChainUnchanged<V>(before: seq<RootSlot<V>>, after: seq<RootSlot<V>>, i: nat, head: Option<nat>, chain: seq<nat>)
    requires Linked(before, head, chain) && OnlySlot(before, after, i)
    requires i < |before| ==> before[i].release.Live?
    requires after[i].release.Live?
    ensures Linked(after, head, chain)
    ensures ChainValues(after, chain) == ChainValues(before, chain)
  {
    assert i !in PendingSet(before);
    assert i !in Elements(chain);
    ThreadUnchanged(before, after, i, head, chain);
    assert PendingSet(after) == PendingSet(before);
  }

  lemma FreeListShrinks<V>(slots: seq<RootSlot<V>>, free: seq<nat>, value: V)
    requires FreeList(slots, free) && free != []
    ensures var slot := free[|free| - 1];
            && slot in FreeSet(slots)
            && FreeList(slots[slot := slots[slot].(value := Some(value))], free[..|free| - 1])
  {
    var slot := free[|free| - 1];
    assert slot in Elements(free);
    var after := slots[slot := slots[slot].(value := Some(value))];
    UpdateCounts(slots, slot, after[slot]);
    var rest := free[..|free| - 1];
    assert free == rest + [slot];
    assert Elements(free) == Elements(rest) + {slot};
    assert FreeSet(after) == FreeSet(slots) - {slot};
  }

  lemma InsertReused<V>(slots: seq<RootSlot<V>>, free: seq<nat>, head: Option<nat>, chain: seq<nat>, issued: set<RootId>, value: V)
    requires Structured(slots, free, head, chain, issued) && free != []
    ensures free[|free| - 1] < |slots|
    ensures var i := free[|free| - 1];
            var after := slots[i := slots[i].(value := Some(value))];
            var id := RootId(i, slots[i].generation);
            && id !in issued && Issued(after, issued + {id})
            && TableOf(after, issued + {id}) == TableOf(slots, issued)[id := value]
    ensures var i := free[|free| - 1];
            var after := slots[i := slots[i].(value := Some(value))];
            Linked(after, head, chain) && ChainValues(after, chain) == ChainValues(slots, chain)
    ensures var i := free[|free| - 1];
            var after := slots[i := slots[i].(value := Some(value))];
            && AllOk(after) && FreeList(after, free[..|free| - 1])
            && multiset(Values(after)) == multiset(Values(slots)) + multiset{value}
            && |Values(after)| == |Values(slots)| + 1
  {
    FreeListShrinks(slots, free, value);
    var i := free[|free| - 1];
    var after := slots[i := slots[i].(value := Some(value))];
    UpdateValues(slots, i, after[i]);
    UpdateCounts(slots, i, after[i]);
    assert SlotOk(slots[i]);
    IssueFresh(slots, after, i, issued, value);
    ChainUnchanged(slots, after, i, head, chain);
  }

  lemma {:induction false} InsertAppended<V>(slots: seq<RootSlot<V>>, head: Option<nat>, chain: seq<nat>, issued: set<RootId>, value: V)
    requires Structured(slots, [], head, chain, issued)
    ensures var after := slots + [RootSlot(1, Some(value), Live)];
            var id := RootId(|slots|, 1);
            && id !in issued && Issued(after, issued + {id})
            && TableOf(after, issued + {id}) == TableOf(slots, issued)[id := value]
    ensures var after := slots + [RootSlot(1, Some(value), Live)];
            Linked(after, head, chain) && ChainValues(after, chain) == ChainValues(slots, chain)
  {
    var after := slots + [RootSlot(1, Some(value), Live)];
    IssueFresh(slots, after, |slots|, issued, value);
    ChainUnchanged(slots, after, |slots|, head, chain);
  }

  lemma {:induction false} AppendKeepsCounts<V>(slots: seq<RootSlot<V>>, value: V)
    requires AllOk(slots) && FreeList(slots, [])
    ensures var after := slots + [RootSlot(1, Some(value), Live)];
            && AllOk(after) && FreeList(after, [])
            && |Values(after)| == |Values(slots)| + 1
            && multiset(Values(after)) == multiset(Values(slots)) + multiset{value}
  {
    AppendSlot(slots, RootSlot(1, Some(value), Live));
    assert FreeSet(slots + [RootSlot(1, Some(value), Live)]) == FreeSet(slots);
  }

  function Vacated<V>(s: RootSlot<V>): RootSlot<V> {
    RootSlot(SaturatingSuccessor(s.generation), None, Live)
  }

  /** The free list after slot `i` was vacated: an exhausted generation is not reusable. */
  function FreeAfter<V>(free: seq<nat>, i: nat, s: RootSlot<V>): seq<nat> {
    if s.generation != U64_MAX then free + [i] else free
  }

  lemma FreeListGrows<V>(slots: seq<RootSlot<V>>, free: seq<nat>, i: nat)
    requires FreeList(slots, free) && i < |slots| && slots[i].value.Some? && SlotOk(slots[i])
    ensures var entry := Vacated(slots[i]);
            FreeList(slots[i := entry], FreeAfter(free, i, entry))
  {
    var entry := Vacated(slots[i]);
    var after := slots[i := entry];
    UpdateCounts(slots, i, entry);
    assert i !in FreeSet(slots);
    assert i !in Elements(free);
    if entry.generation != U64_MAX {
      assert (free + [i])[..|free|] == free;
      assert Elements(free + [i]) == Elements(free) + {i};
      assert FreeSet(after) == FreeSet(slots) + {i};
    } else {
      assert FreeSet(after) == FreeSet(slots);
    }
  }

  /** Emptying a live slot retires its id, frees the slot unless exhausted, and gives up one value. */
  lemma VacateLive<V>(slots: seq<RootSlot<V>>, free: seq<nat>, head: Option<nat>, chain: seq<nat>, issued: set<RootId>, i: nat)
    requires Structured(slots, free, head, chain, issued)
    requires i < |slots| && slots[i].value.Some? && slots[i].release.Live?
    ensures var entry := Vacated(slots[i]);
            var after := slots[i := entry];
            && Issued(after, issued)
            && TableOf(after, issued) == TableOf(slots, issued) - {RootId(i, slots[i].generation)}
    ensures var entry := Vacated(slots[i]);
            var after := slots[i := entry];
            && Linked(after, head, chain) && ChainValues(after, chain) == ChainValues(slots, chain)
            && AllOk(after) && FreeList(after, FreeAfter(free, i, entry))
    ensures var after := slots[i := Vacated(slots[i])];
            && multiset(Values(after)) + multiset{slots[i].value.value} == multiset(Values(slots))
            && |Values(after)| + 1 == |Values(slots)|
  {
    var after := slots[i := Vacated(slots[i])];
    assert SlotOk(slots[i]);
    RetireOccupant(slots, after, i, issued);
    ChainUnchanged(slots, after, i, head, chain);
    FreeListGrows(slots, free, i);
    UpdateValues(slots, i, after[i]);
    UpdateCounts(slots, i, after[i]);
  }

  lemma MarkKeepsValues<V>(slots: seq<RootSlot<V>>, i: nat, release: Release)
    requires i < |slots|
    ensures var after := slots[i := slots[i].(release := release)];
            multiset(Values(after)) == multiset(Values(slots)) && |Values(after)| == |Values(slots)|
  {
    var after := slots[i := slots[i].(release := release)];
    UpdateValues(slots, i, after[i]);
    Cancel(multiset(Values(after)), multiset(Values(slots)), multiset(ValueOf(after[i])));
    UpdateCounts(slots, i, after[i]);
  }

  lemma MarkKeepsFree<V>(slots: seq<RootSlot<V>>, i: nat, release: Release)
    requires i < |slots|
    ensures var after := slots[i := slots[i].(release := release)];
            FreeSet(after) == FreeSet(slots) && FreeCount(after) == FreeCount(slots)
  {
    var after := slots[i := slots[i].(release := release)];
    UpdateCounts(slots, i, after[i]);
    assert FreeSet(after) == FreeSet(slots);
  }

  /** Marking an occupied slot changes neither the free list nor the values held. */
  lemma MarkKeepsContents<V>(slots: seq<RootSlot<V>>, free: seq<nat>, i: nat, release: Release)
    requires AllOk(slots) && FreeList(slots, free)
    requires i < |slots| && slots[i].value.Some?
    ensures var after := slots[i := slots[i].(release := release)];
            && AllOk(after) && FreeList(after, free)
            && multiset(Values(after)) == multiset(Values(slots))
            && |Values(after)| == |Values(slots)|
  {
    var after := slots[i := slots[i].(release := release)];
    MarkKeepsValues(slots, i, release);
    MarkKeepsFree(slots, i, release);
    assert SlotOk(slots[i]);
  }

  lemma MarkKeepsIssued<V>(slots: seq<RootSlot<V>>, issued: set<RootId>, i: nat, release: Release)
    requires Issued(slots, issued) && i < |slots|
    ensures Issued(slots[i := slots[i].(release := release)], issued)
  {
    var after := slots[i := slots[i].(release := release)];
    forall id | id in Occupants(after)
      ensures id in issued
    {
      assert id in Occupants(slots);
    }
    forall id | id in issued
      ensures Dated(after, id)
    {
      assert Dated(slots, id);
    }
  }

  /** A live slot is put at the front of the pending list. */
  lemma LinkFront<V>(slots: seq<RootSlot<V>>, head: Option<nat>, chain: seq<nat>, issued: set<RootId>, i: nat)
    requires Linked(slots, head, chain) && Occupants(slots) <= issued
    requires i < |slots| && slots[i].value.Some? && slots[i].release.Live?
    ensures var after := slots[i := slots[i].(release := Pending(head))];
            && Linked(after, Some(i), [i] + chain)
            && ChainValues(after, [i] + chain) == [slots[i].value.value] + ChainValues(slots, chain)
    ensures var after := slots[i := slots[i].(release := Pending(head))];
            TableOf(after, issued) == TableOf(slots, issued) - {RootId(i, slots[i].generation)}
  {
    var after := slots[i := slots[i].(release := Pending(head))];
    assert i !in PendingSet(slots);
    assert i !in Elements(chain);
    ThreadUnchanged(slots, after, i, head, chain);
    assert ([i] + chain)[1..] == chain;
    assert Elements([i] + chain) == Elements(chain) + {i};
    assert PendingSet(after) == PendingSet(slots) + {i};
  }

  lemma {:induction false} ChainLength<V>(slots: seq<RootSlot<V>>, head: Option<nat>, chain: seq<nat>)
    requires Threaded(slots, head, chain) && AllOk(slots)
    ensures |ChainValues(slots, chain)| == |chain|
    decreases |chain|
  {
    if chain != [] {
      assert SlotOk(slots[chain[0]]);
      ChainLength(slots, slots[chain[0]].release.next, chain[1..]);
    }
  }

  /** The front of the pending list is taken off and is live again. */
  lemma UnlinkFront<V>(slots: seq<RootSlot<V>>, head: Option<nat>, chain: seq<nat>, issued: set<RootId>)
    requires Linked(slots, head, chain) && AllOk(slots) && Issued(slots, issued) && chain != []
    ensures chain[0] < |slots| && slots[chain[0]].release.Pending? && slots[chain[0]].value.Some?
    ensures var i := chain[0];
            var after := slots[i := slots[i].(release := Live)];
            && Linked(after, slots[i].release.next, chain[1..])
            && ChainValues(slots, chain) == [slots[i].value.value] + ChainValues(after, chain[1..])
    ensures var i := chain[0];
            var after := slots[i := slots[i].(release := Live)];
            var id := RootId(i, slots[i].generation);
            id !in TableOf(slots, issued) && TableOf(after, issued) == TableOf(slots, issued)[id := slots[i].value.value]
  {
    var i := chain[0];
    var after := slots[i := slots[i].(release := Live)];
    assert SlotOk(slots[i]);
    ThreadUnchanged(slots, after, i, slots[i].release.next, chain[1..]);
    assert chain == [i] + chain[1..];
    assert Elements(chain) == Elements(chain[1..]) + {i};
    assert PendingSet(after) == PendingSet(slots) - {i};
    var id := RootId(i, slots[i].generation);
    assert id in Occupants(slots);
  }

  /** Insertion fails exactly when every slot below the limit is occupied or exhausted. */
  lemma {:induction false} FullExactly<V>(slots: seq<RootSlot<V>>, free: seq<nat>, limit: nat)
    requires |free| == FreeCount(slots) && |slots| <= limit
    ensures free == [] && |slots| >= limit <==> |Values(slots)| + ExhaustedCount(slots) == limit
  {
    SlotsArePartitioned(slots);
  }

  function Drained<V>(slots: seq<RootSlot<V>>): (r: seq<RootSlot<V>>)
    ensures |r| == |slots|
    ensures forall i :: 0 <= i < |slots| ==> r[i] == Vacated(slots[i])
  {
    seq(|slots|, i requires 0 <= i < |slots| => Vacated(slots[i]))
  }

  /** The reusable slots in index order. */
  function FreeIndices<V>(slots: seq<RootSlot<V>>): seq<nat> {
    if slots == [] then []
    else
      var n := |slots| - 1;
      FreeAfter(FreeIndices(slots[..n]), n, slots[n])
  }

  /** A state of the registry, with its operations. */
  datatype Registry<V> = Registry(
    slots: seq<RootSlot<V>>,
    free: seq<nat>,
    pendingHead: Option<nat>,
    live: int,
    pending: int,
    limit: nat)
  {
    /** The stored indices are in range and the pending list does not start at a live slot, which
        would be a panic. */
    predicate Safe() {
      && (free != [] ==> free[|free| - 1] < |slots|)
      && (pendingHead.Some? ==> pendingHead.value < |slots| && slots[pendingHead.value].release.Pending?)
    }

    function Insert(value: V): (Result<RootId, RootError>, Registry<V>)
      requires Safe()
    {
      if free != [] then
        var slot := free[|free| - 1];
        var entry := slots[slot].(value := Some(value));
        (Ok(RootId(slot, entry.generation)),
         this.(slots := slots[slot := entry], free := free[..|free| - 1], live := live + 1))
      else if |slots| >= limit then (Err(PersistentRootLimitReached), this)
      else (Ok(RootId(|slots|, 1)), this.(slots := slots + [RootSlot(1, Some(value), Live)], live := live + 1))
    }

    function Get(id: RootId): Option<V> {
      if id.slot >= |slots| then None
      else
        var slot := slots[id.slot];
        if slot.generation == id.generation && slot.release.Live? then slot.value else None
    }

    function Remove(id: RootId): (Option<V>, Registry<V>) {
      if Get(id).None? then (None, this)
      else
        var entry := Vacated(slots[id.slot]);
        (Get(id), this.(slots := slots[id.slot := entry], free := FreeAfter(free, id.slot, entry), live := live - 1))
    }

    function RequestRelease(id: RootId): Registry<V> {
      if Get(id).None? then this
      else
        this.(slots := slots[id.slot := slots[id.slot].(release := Pending(pendingHead))],
              pendingHead := Some(id.slot),
              pending := pending + 1)
    }

    function TakePending(): (Option<V>, Registry<V>)
      requires Safe()
    {
      match pendingHead
      case None => (None, this)
      case Some(i) =>
        var slot := slots[i];
        this.(slots := slots[i := slot.(release := Live)], pendingHead := slot.release.next, pending := pending - 1)
            .Remove(RootId(i, slot.generation))
    }

    function Drain(): (seq<V>, Registry<V>) {
      (Values(slots), Registry(Drained(slots), FreeIndices(Drained(slots)), None, 0, 0, limit))
    }
  }

  function New<V>(limit: nat): Registry<V> {
    Registry([], [], None, 0, 0, limit)
  }

  /** A registry with the order of its pending list and every id it has issued. */
  datatype Ledger<V> = Ledger(registry: Registry<V>, chain: seq<nat>, issued: set<RootId>)

  ghost predicate Sound<V>(l: Ledger<V>) {
    var r := l.registry;
    && Structured(r.slots, r.free, r.pendingHead, l.chain, l.issued)
    && |r.slots| <= r.limit
    && r.pending == |l.chain|
    && r.live == |Values(r.slots)|
    && r.Safe()
  }

  /** What the issued ids resolve to. */
  ghost function Table<V>(l: Ledger<V>): map<RootId, V> {
    TableOf(l.registry.slots, l.issued)
  }

  /** Values waiting to be unprotected, the next one first. */
  ghost function Releasing<V>(l: Ledger<V>): seq<V> {
    ChainValues(l.registry.slots, l.chain)
  }

  /** Every value the registry owns a protection for. */
  ghost function Held<V>(l: Ledger<V>): multiset<V> {
    multiset(Values(l.registry.slots))
  }

  /** `Get` answers for exactly the ids in the table, issued or not. */
  lemma GetIsTableLookup<V>(l: Ledger<V>, id: RootId)
    requires Sound(l)
    ensures l.registry.Get(id) == if id in Table(l) then Some(Table(l)[id]) else None
  {
    if id.slot < |l.registry.slots| && l.registry.slots[id.slot].value.Some? && l.registry.slots[id.slot].generation == id.generation {
      assert id in Occupants(l.registry.slots);
    }
  }

  lemma StructureIsSafe<V>(r: Registry<V>, chain: seq<nat>, issued: set<RootId>)
    requires Structured(r.slots, r.free, r.pendingHead, chain, issued)
    ensures r.Safe()
  {
    if r.free != [] {
      assert r.free[|r.free| - 1] in Elements(r.free);
    }
    if chain != [] {
      UnlinkFront(r.slots, r.pendingHead, chain, issued);
    }
  }

  /** Insertion fails exactly at the limit, and otherwise binds a new id. */
  lemma InsertSpec<V>(l: Ledger<V>, value: V)
    requires Sound(l)
    ensures var (r, after) := l.registry.Insert(value);
            r.Err? <==> l.registry.live + ExhaustedCount(l.registry.slots) == l.registry.limit
    ensures var (r, after) := l.registry.Insert(value);
            r.Err? ==> after == l.registry
    ensures var (r, after) := l.registry.Insert(value);
            r.Ok? ==>
              var m := l.(registry := after, issued := l.issued + {r.value});
              && r.value !in l.issued && Sound(m)
              && Table(m) == Table(l)[r.value := value]
              && Releasing(m) == Releasing(l)
              && Held(m) == Held(l) + multiset{value}
  {
    var g := l.registry;
    FullExactly(g.slots, g.free, g.limit);
    if g.free != [] {
      InsertReused(g.slots, g.free, g.pendingHead, l.chain, l.issued, value);
    } else if |g.slots| < g.limit {
      InsertAppended(g.slots, g.pendingHead, l.chain, l.issued, value);
      AppendKeepsCounts(g.slots, value);
    }
    var (r, after) := g.Insert(value);
    if r.Ok? {
      StructureIsSafe(after, l.chain, l.issued + {r.value});
    }
  }

  /** Removal answers for live ids only, retires the id, and gives up its value. */
  lemma RemoveSpec<V>(l: Ledger<V>, id: RootId)
    requires Sound(l)
    ensures var (r, after) := l.registry.Remove(id);
            var m := l.(registry := after);
            && r == (if id in Table(l) then Some(Table(l)[id]) else None)
            && Sound(m)
    ensures var (r, after) := l.registry.Remove(id);
            var m := l.(registry := after);
            && Table(m) == Table(l) - {id}
            && Releasing(m) == Releasing(l)
            && Held(m) + multiset(if r.Some? then [r.value] else []) == Held(l)
            && after.live + One(r.Some?) == l.registry.live
  {
    var g := l.registry;
    GetIsTableLookup(l, id);
    if id in Table(l) {
      VacateLive(g.slots, g.free, g.pendingHead, l.chain, l.issued, id.slot);
      StructureIsSafe(g.Remove(id).1, l.chain, l.issued);
    }
  }

  /** A queued id stops resolving at once; its value stays protected, next in line. */
  lemma RequestReleaseSpec<V>(l: Ledger<V>, id: RootId)
    requires Sound(l)
    ensures var after := l.registry.RequestRelease(id);
            var m := l.(registry := after, chain := if id in Table(l) then [id.slot] + l.chain else l.chain);
            Sound(m) && Held(m) == Held(l) && after.live == l.registry.live
    ensures var after := l.registry.RequestRelease(id);
            var m := l.(registry := after, chain := if id in Table(l) then [id.slot] + l.chain else l.chain);
            && Table(m) == Table(l) - {id}
            && Releasing(m) == if id in Table(l) then [Table(l)[id]] + Releasing(l) else Releasing(l)
  {
    var g := l.registry;
    GetIsTableLookup(l, id);
    if id in Table(l) {
      MarkKeepsContents(g.slots, g.free, id.slot, Pending(g.pendingHead));
      MarkKeepsIssued(g.slots, l.issued, id.slot, Pending(g.pendingHead));
      LinkFront(g.slots, g.pendingHead, l.chain, l.issued, id.slot);
      StructureIsSafe(g.RequestRelease(id), [id.slot] + l.chain, l.issued);
    }
  }

  function Tail<X>(s: seq<X>): seq<X> {
    if s == [] then [] else s[1..]
  }

  /** The ledger between the two halves of a take: the front of the list is live again. */
  ghost function Unlinked<V>(l: Ledger<V>): Ledger<V>
    requires l.chain != [] && l.chain[0] < |l.registry.slots| && l.registry.slots[l.chain[0]].release.Pending?
  {
    var g, i := l.registry, l.chain[0];
    Ledger(g.(slots := g.slots[i := g.slots[i].(release := Live)],
              pendingHead := g.slots[i].release.next, pending := g.pending - 1),
           l.chain[1..], l.issued)
  }

  lemma UnlinkedIsSound<V>(l: Ledger<V>)
    requires Sound(l) && l.chain != []
    ensures l.chain[0] < |l.registry.slots| && l.registry.slots[l.chain[0]].release.Pending?
    ensures l.registry.slots[l.chain[0]].value.Some?
    ensures Sound(Unlinked(l)) && Held(Unlinked(l)) == Held(l)
    ensures var slot := l.registry.slots[l.chain[0]];
            var id := RootId(l.chain[0], slot.generation);
            && id !in Table(l) && Table(Unlinked(l)) == Table(l)[id := slot.value.value]
            && Releasing(l) == [slot.value.value] + Releasing(Unlinked(l))
  {
    var g, i := l.registry, l.chain[0];
    UnlinkFront(g.slots, g.pendingHead, l.chain, l.issued);
    MarkKeepsContents(g.slots, g.free, i, Live);
    MarkKeepsIssued(g.slots, l.issued, i, Live);
    StructureIsSafe(Unlinked(l).registry, l.chain[1..], l.issued);
  }

  lemma TakeIsUnlinkThenRemove<V>(l: Ledger<V>)
    requires Sound(l) && l.chain != []
    ensures l.chain[0] < |l.registry.slots| && l.registry.slots[l.chain[0]].release.Pending?
    ensures var id := RootId(l.chain[0], l.registry.slots[l.chain[0]].generation);
            l.registry.TakePending() == Unlinked(l).registry.Remove(id)
  {
  }

  /** The ledger after a take. */
  ghost function Taken<V>(l: Ledger<V>): Ledger<V>
    requires l.registry.Safe()
  {
    l.(registry := l.registry.TakePending().1, chain := Tail(l.chain))
  }

  lemma TakenIsSound<V>(l: Ledger<V>)
    requires Sound(l)
    ensures Sound(Taken(l))
  {
    if l.chain != [] {
      UnlinkedIsSound(l);
      TakeIsUnlinkThenRemove(l);
      RemoveSpec(Unlinked(l), RootId(l.chain[0], l.registry.slots[l.chain[0]].generation));
    }
  }

  lemma TakeRemovesFront<V>(l: Ledger<V>)
    requires Sound(l) && l.chain != []
    ensures var front := l.registry.TakePending().0;
            && front.Some?
            && Releasing(l) == [front.value] + Releasing(Taken(l))
            && Table(Taken(l)) == Table(l)
            && Held(Taken(l)) + multiset{front.value} == Held(l)
            && Taken(l).registry.live + 1 == l.registry.live
  {
    UnlinkedIsSound(l);
    TakeIsUnlinkThenRemove(l);
    RemoveSpec(Unlinked(l), RootId(l.chain[0], l.registry.slots[l.chain[0]].generation));
  }

  /** Each take removes the value queued last and leaves every resolvable id alone. */
  lemma TakePendingSpec<V>(l: Ledger<V>)
    requires Sound(l)
    ensures var r := l.registry.TakePending().0;
            && r == (if Releasing(l) == [] then None else Some(Releasing(l)[0]))
            && Table(Taken(l)) == Table(l)
            && Releasing(Taken(l)) == Tail(Releasing(l))
            && Held(Taken(l)) + multiset(if r.Some? then [r.value] else []) == Held(l)
            && Taken(l).registry.live + One(r.Some?) == l.registry.live
  {
    if l.chain != [] {
      TakeRemovesFront(l);
    }
  }

  lemma {:induction false} FreeIndicesAreFree<V>(slots: seq<RootSlot<V>>)
    requires forall i :: 0 <= i < |slots| ==> slots[i].value.None? && slots[i].generation <= U64_MAX
    ensures FreeList(slots, FreeIndices(slots))
    ensures Values(slots) == []
  {
    if slots != [] {
      var n := |slots| - 1;
      var init := FreeIndices(slots[..n]);
      FreeIndicesAreFree(slots[..n]);
      assert n !in FreeSet(slots[..n]);
      assert n !in Elements(init);
      assert FreeSet(slots) == FreeSet(slots[..n]) + if Free(slots[n]) then {n} else {};
      assert (init + [n])[..|init|] == init;
      assert Elements(init + [n]) == Elements(init) + {n};
    }
  }

  lemma DrainedOk<V>(slots: seq<RootSlot<V>>, issued: set<RootId>)
    requires AllOk(slots) && Issued(slots, issued)
    ensures AllOk(Drained(slots)) && Issued(Drained(slots), issued)
    ensures forall id :: id in issued ==> !Resolves(Drained(slots), id)
  {
    var after := Drained(slots);
    forall i | 0 <= i < |after|
      ensures SlotOk(after[i])
    {
      assert SlotOk(slots[i]);
    }
    forall id | id in issued
      ensures Dated(after, id)
    {
      assert Dated(slots, id) && SlotOk(slots[id.slot]);
    }
    assert Occupants(after) == {};
  }

  lemma DrainedLists<V>(slots: seq<RootSlot<V>>)
    requires AllOk(slots)
    ensures FreeList(Drained(slots), FreeIndices(Drained(slots))) && Values(Drained(slots)) == []
    ensures Linked(Drained(slots), None, [])
  {
    forall i | 0 <= i < |slots|
      ensures Drained(slots)[i].value.None? && Drained(slots)[i].generation <= U64_MAX
    {
      assert SlotOk(slots[i]);
    }
    FreeIndicesAreFree(Drained(slots));
    assert PendingSet(Drained(slots)) == {};
  }

  /** Draining hands out every held value once, live or pending, and retires every id ever issued. */
  lemma DrainSpec<V>(l: Ledger<V>)
    requires Sound(l)
    ensures var (values, after) := l.registry.Drain();
            var m := l.(registry := after, chain := []);
            && Sound(m) && Table(m) == map[] && Releasing(m) == [] && Held(m) == multiset{}
            && multiset(values) == Held(l) && |values| == l.registry.live
  {
    DrainedOk(l.registry.slots, l.issued);
    DrainedLists(l.registry.slots);
    StructureIsSafe(l.registry.Drain().1, [], l.issued);
  }

  datatype Command<V> = DoInsert(value: V) | DoGet(id: RootId) | DoRemove(id: RootId) | DoRelease(id: RootId) | DoTake | DoDrain

  /** What a command hands back: the id it bound, or the values it gave up. */
  datatype Answer<V> = Answer(bound: Option<RootId>, given: seq<V>)

  function Given<V>(r: Option<V>): seq<V> {
    if r.Some? then [r.value] else []
  }

  ghost function Reply<V>(l: Ledger<V>, c: Command<V>): Answer<V>
    requires Sound(l)
  {
    match c
    case DoInsert(v) =>
      var r := l.registry.Insert(v).0;
      Answer(if r.Ok? then Some(r.value) else None, [])
    case DoGet(_) => Answer(None, [])
    case DoRemove(id) => Answer(None, Given(l.registry.Remove(id).0))
    case DoRelease(_) => Answer(None, [])
    case DoTake => Answer(None, Given(l.registry.TakePending().0))
    case DoDrain => Answer(None, l.registry.Drain().0)
  }

  /** Every command keeps the registry sound. */
  ghost function After<V>(l: Ledger<V>, c: Command<V>): (m: Ledger<V>)
    requires Sound(l)
    ensures Sound(m)
  {
    match c
    case DoInsert(v) =>
      InsertSpec(l, v);
      var (r, g) := l.registry.Insert(v);
      if r.Ok? then l.(registry := g, issued := l.issued + {r.value}) else l
    case DoGet(_) => l
    case DoRemove(id) =>
      RemoveSpec(l, id);
      l.(registry := l.registry.Remove(id).1)
    case DoRelease(id) =>
      RequestReleaseSpec(l, id);
      l.(registry := l.registry.RequestRelease(id), chain := if id in Table(l) then [id.slot] + l.chain else l.chain)
    case DoTake =>
      TakenIsSound(l);
      Taken(l)
    case DoDrain =>
      DrainSpec(l);
      l.(registry := l.registry.Drain().1, chain := [])
  }

  lemma NewIsSound<V>(limit: nat)
    ensures Sound(Ledger(New<V>(limit), [], {}))
  {
    assert FreeSet<V>([]) == {} && PendingSet<V>([]) == {} && Occupants<V>([]) == {};
  }

  ghost function RunCommands<V>(limit: nat, commands: seq<Command<V>>): (l: Ledger<V>)
    ensures Sound(l)
    decreases |commands|
  {
    if commands == [] then
      NewIsSound<V>(limit);
      Ledger(New(limit), [], {})
    else
      After(RunCommands(limit, commands[..|commands| - 1]), commands[|commands| - 1])
  }

  /** The table after a command. */
  ghost function TableAfter<V>(l: Ledger<V>, c: Command<V>): map<RootId, V>
    requires Sound(l)
  {
    match c
    case DoInsert(v) => var r := Reply(l, c).bound; if r.Some? then Table(l)[r.value := v] else Table(l)
    case DoRemove(id) => Table(l) - {id}
    case DoRelease(id) => Table(l) - {id}
    case DoDrain => map[]
    case _ => Table(l)
  }

  lemma InsertIsMapStep<V>(l: Ledger<V>, v: V)
    requires Sound(l)
    ensures var m, a := After(l, DoInsert(v)), Reply(l, DoInsert(v));
            && (a.bound.Some? ==> a.bound.value !in l.issued)
            && m.issued == l.issued + (if a.bound.Some? then {a.bound.value} else {})
            && Table(m) == TableAfter(l, DoInsert(v))
  {
    InsertSpec(l, v);
  }

  lemma UnbindIsMapStep<V>(l: Ledger<V>, id: RootId)
    requires Sound(l)
    ensures Table(After(l, DoRemove(id))) == Table(l) - {id} && Table(After(l, DoRelease(id))) == Table(l) - {id}
  {
    RemoveSpec(l, id);
    RequestReleaseSpec(l, id);
  }

  lemma TakeIsMapStep<V>(l: Ledger<V>)
    requires Sound(l)
    ensures Table(After(l, DoTake)) == Table(l)
  {
    TakePendingSpec(l);
  }

  lemma DrainIsMapStep<V>(l: Ledger<V>)
    requires Sound(l)
    ensures Table(After(l, DoDrain)) == map[]
  {
    DrainSpec(l);
    assert After(l, DoDrain) == l.(registry := l.registry.Drain().1, chain := []);
  }

  /** The registry is a map from issued ids to values: insertion binds an id never issued before,
      removal, release and drain unbind, and nothing else changes what an id resolves to. */
  lemma StepIsMapStep<V>(l: Ledger<V>, c: Command<V>)
    requires Sound(l)
    ensures var m, a := After(l, c), Reply(l, c);
            && (a.bound.Some? ==> c.DoInsert? && a.bound.value !in l.issued)
            && m.issued == l.issued + (if a.bound.Some? then {a.bound.value} else {})
            && Table(m) == TableAfter(l, c)
  {
    match c
    case DoInsert(v) => InsertIsMapStep(l, v);
    case DoGet(_) =>
    case DoRemove(id) => UnbindIsMapStep(l, id);
    case DoRelease(id) => UnbindIsMapStep(l, id);
    case DoTake => TakeIsMapStep(l);
    case DoDrain => DrainIsMapStep(l);
  }

  lemma {:induction false} IssuedGrows<V>(limit: nat, commands: seq<Command<V>>, k: nat)
    requires k <= |commands|
    ensures RunCommands(limit, commands[..k]).issued <= RunCommands(limit, commands).issued
    decreases |commands|
  {
    if k < |commands| {
      var before := commands[..|commands| - 1];
      assert before[..k] == commands[..k];
      IssuedGrows(limit, before, k);
      StepIsMapStep(RunCommands(limit, before), commands[|commands| - 1]);
    } else {
      assert commands[..k] == commands;
    }
  }

  lemma {:induction false} PrefixStep<V>(limit: nat, commands: seq<Command<V>>, j: nat)
    requires j < |commands|
    ensures RunCommands(limit, commands[..j + 1]) == After(RunCommands(limit, commands[..j]), commands[j])
  {
    assert commands[..j + 1][..j] == commands[..j];
  }

  lemma BoundIsIssued<V>(l: Ledger<V>, c: Command<V>)
    requires Sound(l)
    ensures Reply(l, c).bound.Some? ==> Reply(l, c).bound.value !in l.issued && Reply(l, c).bound.value in After(l, c).issued
  {
    StepIsMapStep(l, c);
  }

  lemma BoundStaysIssued<V>(limit: nat, commands: seq<Command<V>>, j: nat)
    requires j < |commands|
    requires Reply(RunCommands(limit, commands[..j]), commands[j]).bound.Some?
    ensures Reply(RunCommands(limit, commands[..j]), commands[j]).bound.value in RunCommands(limit, commands).issued
  {
    BoundIsIssued(RunCommands(limit, commands[..j]), commands[j]);
    PrefixStep(limit, commands, j);
    IssuedGrows(limit, commands, j + 1);
  }

  /** Over any history, drains and exhausted generations included, no id is issued twice. */
  lemma {:induction false} IdsNeverRepeat<V>(limit: nat, commands: seq<Command<V>>, j: nat, k: nat)
    requires j < k < |commands|
    requires Reply(RunCommands(limit, commands[..j]), commands[j]).bound.Some?
    ensures Reply(RunCommands(limit, commands[..j]), commands[j]).bound
         != Reply(RunCommands(limit, commands[..k]), commands[k]).bound
  {
    var before := commands[..k];
    assert before[..j] == commands[..j] && before[j] == commands[j];
    BoundStaysIssued(limit, before, j);
    BoundIsIssued(RunCommands(limit, before), commands[k]);
  }

  /** An issued id that has stopped resolving never resolves again. */
  lemma {:induction false} StaleForever<V>(limit: nat, commands: seq<Command<V>>, k: nat, id: RootId)
    requires k <= |commands|
    requires var l := RunCommands(limit, commands[..k]); id in l.issued && id !in Table(l)
    ensures RunCommands(limit, commands).registry.Get(id) == None
    decreases |commands|
  {
    GetIsTableLookup(RunCommands(limit, commands), id);
    StaleStaysStale(limit, commands, k, id);
  }

  lemma StaleAfter<V>(l: Ledger<V>, c: Command<V>, id: RootId)
    requires Sound(l) && id in l.issued && id !in Table(l)
    ensures id in After(l, c).issued && id !in Table(After(l, c))
  {
    StepIsMapStep(l, c);
  }

  lemma {:induction false} StaleStaysStale<V>(limit: nat, commands: seq<Command<V>>, k: nat, id: RootId)
    requires k <= |commands|
    requires var l := RunCommands(limit, commands[..k]); id in l.issued && id !in Table(l)
    ensures var l := RunCommands(limit, commands); id in l.issued && id !in Table(l)
    decreases |commands|
  {
    if k < |commands| {
      var before := commands[..|commands| - 1];
      assert before[..k] == commands[..k];
      StaleStaysStale(limit, before, k, id);
      StaleAfter(RunCommands(limit, before), commands[|commands| - 1], id);
    } else {
      assert commands[..k] == commands;
    }
  }

  /** Values whose insertion succeeded. */
  ghost function Stored<V>(limit: nat, commands: seq<Command<V>>): multiset<V>
    decreases |commands|
  {
    if commands == [] then multiset{}
    else
      var before := commands[..|commands| - 1];
      var c := commands[|commands| - 1];
      Stored(limit, before) +
      if c.DoInsert? && Reply(RunCommands(limit, before), c).bound.Some? then multiset{c.value} else multiset{}
  }

  /** Values given up by removals, takes and drains. */
  ghost function Returned<V>(limit: nat, commands: seq<Command<V>>): multiset<V>
    decreases |commands|
  {
    if commands == [] then multiset{}
    else
      var before := commands[..|commands| - 1];
      Returned(limit, before) + multiset(Reply(RunCommands(limit, before), commands[|commands| - 1]).given)
  }

  lemma Untouched<V>(l: Ledger<V>, c: Command<V>)
    requires Sound(l) && (c.DoGet? || c.DoRelease?) && Held(After(l, c)) == Held(l)
    ensures Held(After(l, c)) + multiset(Reply(l, c).given) == Held(l)
  {
    assert Reply(l, c).given == [];
  }

  lemma InsertConserves<V>(l: Ledger<V>, v: V)
    requires Sound(l)
    ensures Reply(l, DoInsert(v)).given == []
    ensures Held(After(l, DoInsert(v))) == Held(l) + if Reply(l, DoInsert(v)).bound.Some? then multiset{v} else multiset{}
  {
    InsertSpec(l, v);
  }

  lemma RemoveConserves<V>(l: Ledger<V>, id: RootId)
    requires Sound(l)
    ensures Held(After(l, DoRemove(id))) + multiset(Reply(l, DoRemove(id)).given) == Held(l)
  {
    RemoveSpec(l, id);
  }

  lemma TakeConserves<V>(l: Ledger<V>)
    requires Sound(l)
    ensures Held(After(l, DoTake)) + multiset(Reply(l, DoTake).given) == Held(l)
  {
    TakePendingSpec(l);
  }

  lemma DrainConserves<V>(l: Ledger<V>)
    requires Sound(l)
    ensures Held(After(l, DoDrain)) + multiset(Reply(l, DoDrain).given) == Held(l)
  {
    DrainSpec(l);
  }

  lemma StepConservesValues<V>(l: Ledger<V>, c: Command<V>)
    requires Sound(l)
    ensures Held(After(l, c)) + multiset(Reply(l, c).given)
         == Held(l) + if c.DoInsert? && Reply(l, c).bound.Some? then multiset{c.value} else multiset{}
  {
    match c
    case DoInsert(v) => InsertConserves(l, v);
    case DoGet(_) => Untouched(l, c);
    case DoRemove(id) => RemoveConserves(l, id);
    case DoRelease(id) => RequestReleaseSpec(l, id); Untouched(l, c);
    case DoTake => TakeConserves(l);
    case DoDrain => DrainConserves(l);
  }

  lemma Carry<V>(stored: multiset<V>, held: multiset<V>, returned: multiset<V>, after: multiset<V>, given: multiset<V>, taken: multiset<V>)
    requires stored == held + returned && after + given == held + taken
    ensures stored + taken == after + (returned + given)
  {
    assert stored + taken == (held + taken) + returned;
    assert after + (returned + given) == (after + given) + returned;
  }

  /** Every value stored is held by the registry or was given up, exactly once. */
  lemma {:induction false} ValuesAreConserved<V>(limit: nat, commands: seq<Command<V>>)
    ensures Stored(limit, commands) == Held(RunCommands(limit, commands)) + Returned(limit, commands)
    decreases |commands|
  {
    if commands != [] {
      var before := commands[..|commands| - 1];
      var c := commands[|commands| - 1];
      var l := RunCommands(limit, before);
      ValuesAreConserved(limit, before);
      StepConservesValues(l, c);
      Carry(Stored(limit, before), Held(l), Returned(limit, before), Held(After(l, c)), multiset(Reply(l, c).given),
            if c.DoInsert? && Reply(l, c).bound.Some? then multiset{c.value} else multiset{});
    }
  }

  lemma {:induction false} ChainIsDistinct<V>(slots: seq<RootSlot<V>>, head: Option<nat>, chain: seq<nat>)
    requires Threaded(slots, head, chain)
    ensures |Elements(chain)| == |chain|
    decreases |chain|
  {
    if chain != [] {
      ChainIsDistinct(slots, slots[chain[0]].release.next, chain[1..]);
      assert chain == [chain[0]] + chain[1..];
      assert Elements(chain) == Elements(chain[1..]) + {chain[0]};
    }
  }

  /** The cached counters are the number of values held and the number of slots marked pending, which
      the intrusive list reaches once each; the slots stay within the limit. */
  lemma {:induction false} CountersAreExact<V>(limit: nat, commands: seq<Command<V>>)
    ensures var l := RunCommands(limit, commands);
            && l.registry.live == |Held(l)|
            && l.registry.pending == |PendingSet(l.registry.slots)| == |Releasing(l)|
            && l.registry.live + FreeCount(l.registry.slots) + ExhaustedCount(l.registry.slots)
               == |l.registry.slots| <= l.registry.limit
  {
    var l := RunCommands(limit, commands);
    ChainIsDistinct(l.registry.slots, l.registry.pendingHead, l.chain);
    ChainLength(l.registry.slots, l.registry.pendingHead, l.chain);
    SlotsArePartitioned(l.registry.slots);
  }
}
