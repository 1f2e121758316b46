/** The slot maps that hold the deterministic backend's values and roots.

  A slot map is the root registry without a limit and without deferred release, so its slots are the
  registry's, with a release mark that stays `Live`.
*/
module SlotMaps {
  import opened Words
  import opened Wrappers
  import opened RootRegistry

  datatype Slots<T> = Slots(slots: seq<RootSlot<T>>, free: seq<nat>) {
    function Insert(value: T): (RootId, Slots<T>)
      requires free != [] ==> free[|free| - 1] < |slots|
    {
      if free != [] then
        var i := free[|free| - 1];
        (RootId(i, slots[i].generation), Slots(slots[i := slots[i].(value := Some(value))], free[..|free| - 1]))
      else (RootId(|slots|, 1), Slots(slots + [RootSlot(1, Some(value), Live)], []))
    }

    function Get(id: RootId): Option<T> {
      if id.slot < |slots| && slots[id.slot].generation == id.generation then slots[id.slot].value else None
    }

    function Remove(id: RootId): (Option<T>, Slots<T>) {
      if Get(id).None? then (None, this)
      else
        var entry := Vacated(slots[id.slot]);
        (Get(id), Slots(slots[id.slot := entry], FreeAfter(free, id.slot, entry)))
    }

    /** A registry with room for one more slot. */
    function AsRegistry(): Registry<T> {
      Registry(slots, free, None, |Values(slots)|, 0, |slots| + 1)
    }
  }

  ghost function AsLedger<T>(m: Slots<T>, issued: set<RootId>): Ledger<T> {
    Ledger(m.AsRegistry(), [], issued)
  }

  ghost predicate SlotsOk<T>(m: Slots<T>, issued: set<RootId>) {
    Sound(AsLedger(m, issued))
  }

  /** The live ids and their values. */
  ghost function Bindings<T>(m: Slots<T>, issued: set<RootId>): map<RootId, T> {
    Table(AsLedger(m, issued))
  }

  lemma AllLive<T>(m: Slots<T>, issued: set<RootId>, i: nat)
    requires SlotsOk(m, issued) && i < |m.slots|
    ensures m.slots[i].release.Live?
  {
    assert i in PendingSet(m.slots) <==> i in Elements([]);
  }

  lemma EmptyOk<T>()
    ensures SlotsOk<T>(Slots([], []), {})
    ensures Bindings<T>(Slots([], []), {}) == map[]
  {
    NewIsSound<T>(1);
  }

  /** A limit above the slots in use is a limit that does not matter. */
  lemma LimitAside<T>(r: Registry<T>, issued: set<RootId>, limit: nat)
    requires Sound(Ledger(r, [], issued)) && |r.slots| <= limit
    ensures Sound(Ledger(r.(limit := limit), [], issued))
    ensures Table(Ledger(r.(limit := limit), [], issued)) == Table(Ledger(r, [], issued))
  {
  }

  /** Insertion always binds an id that was never issued before, and disturbs no other. */
  lemma InsertBinds<T>(m: Slots<T>, issued: set<RootId>, value: T)
    requires SlotsOk(m, issued)
    ensures m.free != [] ==> m.free[|m.free| - 1] < |m.slots|
    ensures var (id, n) := m.Insert(value);
            && id !in issued && SlotsOk(n, issued + {id})
            && Bindings(n, issued + {id}) == Bindings(m, issued)[id := value]
  {
    var l := AsLedger(m, issued);
    InsertSpec(l, value);
    SlotsArePartitioned(m.slots);
    var (id, n) := m.Insert(value);
    var (r, after) := m.AsRegistry().Insert(value);
    assert r == Ok(id) && after.slots == n.slots && after.free == n.free;
    LimitAside(after, issued + {id}, |n.slots| + 1);
    assert n.AsRegistry() == after.(limit := |n.slots| + 1);
  }

  lemma GetIsBinding<T>(m: Slots<T>, issued: set<RootId>, id: RootId)
    requires SlotsOk(m, issued)
    ensures m.Get(id) == if id in Bindings(m, issued) then Some(Bindings(m, issued)[id]) else None
  {
    GetIsTableLookup(AsLedger(m, issued), id);
    if id.slot < |m.slots| {
      AllLive(m, issued, id.slot);
    }
  }

  /** Removal unbinds exactly that id, and it can never be bound again. */
  lemma RemoveUnbinds<T>(m: Slots<T>, issued: set<RootId>, id: RootId)
    requires SlotsOk(m, issued)
    ensures var (r, n) := m.Remove(id);
            && r == (if id in Bindings(m, issued) then Some(Bindings(m, issued)[id]) else None)
            && SlotsOk(n, issued)
            && Bindings(n, issued) == Bindings(m, issued) - {id}
  {
    var l := AsLedger(m, issued);
    GetIsBinding(m, issued, id);
    RemoveSpec(l, id);
    if id.slot < |m.slots| {
      AllLive(m, issued, id.slot);
    }
    var (r, n) := m.Remove(id);
    var after := m.AsRegistry().Remove(id).1;
    assert after.slots == n.slots && after.free == n.free && |n.slots| == |m.slots|;
    assert n.AsRegistry() == after;
  }

  datatype SlotCommand<T> = Put(value: T) | Take(id: RootId)

  ghost function Nothing<T>(): (Slots<T>, set<RootId>)
    ensures SlotsOk(Nothing<T>().0, Nothing<T>().1)
  {
    EmptyOk<T>();
    (Slots([], []), {})
  }

  /** Slots with every id they have issued. */
  type History<T> = h: (Slots<T>, set<RootId>) | SlotsOk(h.0, h.1) ghost witness Nothing<T>()

  ghost function Issued<T>(h: History<T>): set<RootId> {
    h.1
  }

  ghost function Bound<T>(h: History<T>): map<RootId, T> {
    Bindings(h.0, h.1)
  }

  /** The id an insertion gets. */
  ghost function NewId<T>(h: History<T>, value: T): RootId {
    InsertBinds(h.0, h.1, value);
    h.0.Insert(value).0
  }

  ghost function Apply<T>(h: History<T>, c: SlotCommand<T>): History<T> {
    match c
    case Put(v) =>
      InsertBinds(h.0, h.1, v);
      (h.0.Insert(v).1, h.1 + {h.0.Insert(v).0})
    case Take(id) =>
      RemoveUnbinds(h.0, h.1, id);
      (h.0.Remove(id).1, h.1)
  }

  lemma ApplySpec<T>(h: History<T>, c: SlotCommand<T>)
    ensures Issued(Apply(h, c)) == Issued(h) + (if c.Put? then {NewId(h, c.value)} else {})
    ensures c.Put? ==> NewId(h, c.value) !in Issued(h)
    ensures Bound(Apply(h, c)) == if c.Put? then Bound(h)[NewId(h, c.value) := c.value] else Bound(h) - {c.id}
  {
    match c
    case Put(v) => InsertBinds(h.0, h.1, v);
    case Take(id) => RemoveUnbinds(h.0, h.1, id);
  }

  /** The slots after a history of insertions and removals. */
  ghost function RunSlots<T>(commands: seq<SlotCommand<T>>): History<T>
    decreases |commands|
  {
    if commands == [] then Nothing()
    else Apply(RunSlots(commands[..|commands| - 1]), commands[|commands| - 1])
  }

  lemma {:induction false} IssuedStays<T>(commands: seq<SlotCommand<T>>, k: nat)
    requires k <= |commands|
    ensures Issued(RunSlots(commands[..k])) <= Issued(RunSlots(commands))
    decreases |commands|
  {
    if k < |commands| {
      var before := commands[..|commands| - 1];
      assert before[..k] == commands[..k];
      IssuedStays(before, k);
      ApplySpec(RunSlots(before), commands[|commands| - 1]);
    } else {
      assert commands[..k] == commands;
    }
  }

  lemma OneMoreCommand<T>(commands: seq<SlotCommand<T>>, j: nat)
    requires j < |commands|
    ensures RunSlots(commands[..j + 1]) == Apply(RunSlots(commands[..j]), commands[j])
  {
    assert commands[..j + 1][..j] == commands[..j];
  }

  /** The ids issued by the first `j` commands are among those issued by the first `k`. */
  lemma IssuedGrows<T>(commands: seq<SlotCommand<T>>, j: nat, k: nat)
    requires j <= k <= |commands|
    ensures Issued(RunSlots(commands[..j])) <= Issued(RunSlots(commands[..k]))
  {
    assert commands[..k][..j] == commands[..j];
    IssuedStays(commands[..k], j);
  }

  lemma IdIsIssued<T>(commands: seq<SlotCommand<T>>, j: nat, k: nat)
    requires j < k <= |commands| && commands[j].Put?
    ensures NewId(RunSlots(commands[..j]), commands[j].value) in Issued(RunSlots(commands[..k]))
  {
    ApplySpec(RunSlots(commands[..j]), commands[j]);
    OneMoreCommand(commands, j);
    IssuedGrows(commands, j + 1, k);
  }

  /** Over any history, exhausted generations included, no id is issued twice. */
  lemma IdsNeverRepeat<T>(commands: seq<SlotCommand<T>>, j: nat, k: nat)
    requires j < k < |commands| && commands[j].Put? && commands[k].Put?
    ensures NewId(RunSlots(commands[..j]), commands[j].value) != NewId(RunSlots(commands[..k]), commands[k].value)
  {
    IdIsIssued(commands, j, k);
    ApplySpec(RunSlots(commands[..k]), commands[k]);
  }

  lemma {:induction false} StaleStaysStale<T>(commands: seq<SlotCommand<T>>, k: nat, id: RootId)
    requires k <= |commands|
    requires id in Issued(RunSlots(commands[..k])) && id !in Bound(RunSlots(commands[..k]))
    ensures id in Issued(RunSlots(commands)) && id !in Bound(RunSlots(commands))
    decreases |commands|
  {
    if k < |commands| {
      var before := commands[..|commands| - 1];
      assert before[..k] == commands[..k];
      StaleStaysStale(before, k, id);
      ApplySpec(RunSlots(before), commands[|commands| - 1]);
    } else {
      assert commands[..k] == commands;
    }
  }

  /** And an id that stopped resolving never resolves again. */
  lemma {:induction false} StaleForever<T>(commands: seq<SlotCommand<T>>, k: nat, id: RootId)
    requires k <= |commands|
    requires id in Issued(RunSlots(commands[..k])) && id !in Bound(RunSlots(commands[..k]))
    ensures RunSlots(commands).0.Get(id) == None
  {
    StaleStaysStale(commands, k, id);
    GetIsBinding(RunSlots(commands).0, RunSlots(commands).1, id);
  }

  class SlotMap<T> {
    var slots: seq<RootSlot<T>>
    var free: seq<nat>

    ghost function View(): Slots<T>
      reads this
    {
      Slots(slots, free)
    }

    constructor ()
      ensures View() == Slots([], [])
    {
      slots, free := [], [];
    }

    method Insert(value: T) returns (id: RootId)
      requires free != [] ==> free[|free| - 1] < |slots|
      modifies this
      ensures (id, View()) == old(View()).Insert(value)
    {
      if free != [] {
        var index := free[|free| - 1];
        free := free[..|free| - 1];
        slots := slots[index := slots[index].(value := Some(value))];
        return RootId(index, slots[index].generation);
      }
      var index := |slots|;
      slots := slots + [RootSlot(1, Some(value), Live)];
      return RootId(index, 1);
    }

    method Get(id: RootId) returns (r: Option<T>)
      ensures r == View().Get(id)
    {
      if id.slot >= |slots| {
        return None;
      }
      return if slots[id.slot].generation == id.generation then slots[id.slot].value else None;
    }

    method Remove(id: RootId) returns (r: Option<T>)
      requires id.slot < |slots| ==> slots[id.slot].release.Live?
      modifies this
      ensures (r, View()) == old(View()).Remove(id)
    {
      if id.slot >= |slots| {
        return None;
      }
      var slot := slots[id.slot];
      if slot.generation != id.generation || slot.value.None? {
        return None;
      }
      var generation := SaturatingSuccessor(slot.generation);
      slots := slots[id.slot := slot.(value := None, generation := generation)];
      if generation != U64_MAX {
        free := free + [id.slot];
      }
      return slot.value;
    }
  }
}
