/** The registry as the object that is updated in place. */
module RootStore {
  import opened Words
  import opened Wrappers
  import opened RootRegistry

  /** Each method changes the fields as the source does, and is proved to return and leave what the
    operation of `Registry` says. */
  class Store<V> {
    var slots: seq<RootSlot<V>>
    var free: seq<nat>
    var pendingHead: Option<nat>
    var live: int
    var pending: int
    const limit: nat

    ghost function View(): Registry<V>
      reads this
    {
      Registry(slots, free, pendingHead, live, pending, limit)
    }

    constructor (limit: nat)
      ensures View() == New(limit)
    {
      slots, free, pendingHead, live, pending := [], [], None, 0, 0;
      this.limit := limit;
    }

    method Insert(value: V) returns (r: Result<RootId, RootError>)
      requires View().Safe()
      modifies this
      ensures (r, View()) == old(View()).Insert(value)
    {
      if free != [] {
        var slot := free[|free| - 1];
        free := free[..|free| - 1];
        var entry := slots[slot].(value := Some(value));
        slots := slots[slot := entry];
        live := live + 1;
        return Ok(RootId(slot, entry.generation));
      }
      if |slots| >= limit {
        return Err(PersistentRootLimitReached);
      }
      var slot := |slots|;
      slots := slots + [RootSlot(1, Some(value), Live)];
      live := live + 1;
      return Ok(RootId(slot, 1));
    }

    method Get(id: RootId) returns (r: Option<V>)
      ensures r == View().Get(id)
    {
      if id.slot >= |slots| {
        return None;
      }
      var slot := slots[id.slot];
      if slot.generation == id.generation && slot.release == Live {
        return slot.value;
      }
      return None;
    }

    method Remove(id: RootId) returns (r: Option<V>)
      modifies this
      ensures (r, View()) == old(View()).Remove(id)
    {
      if id.slot >= |slots| {
        return None;
      }
      var slot := slots[id.slot];
      if slot.generation != id.generation || slot.release != Live || slot.value.None? {
        return None;
      }
      var generation := SaturatingSuccessor(slot.generation);
      slots := slots[id.slot := slot.(value := None, generation := generation)];
      live := live - 1;
      if generation != U64_MAX {
        free := free + [id.slot];
      }
      return slot.value;
    }

    method RequestRelease(id: RootId)
      modifies this
      ensures View() == old(View()).RequestRelease(id)
    {
      if id.slot >= |slots| {
        return;
      }
      var slot := slots[id.slot];
      if slot.generation != id.generation || slot.value.None? || slot.release != Live {
        return;
      }
      slots := slots[id.slot := slot.(release := Pending(pendingHead))];
      pendingHead := Some(id.slot);
      pending := pending + 1;
    }

    method TakePending() returns (r: Option<V>)
      requires View().Safe()
      modifies this
      ensures (r, View()) == old(View()).TakePending()
    {
      match pendingHead {
        case None => return None;
        case Some(index) =>
          var slot := slots[index];
          match slot.release {
            case Live => assert false;
            case Pending(next) =>
              pendingHead := next;
              slots := slots[index := slot.(release := Live)];
              pending := pending - 1;
              r := Remove(RootId(index, slot.generation));
          }
      }
    }

    /** The slots, the values taken and the free list when a drain has reached slot `i`. */
    static function DrainedTo(slots: seq<RootSlot<V>>, i: nat): (r: (seq<RootSlot<V>>, seq<V>, seq<nat>))
      requires i <= |slots|
      ensures |r.0| == |slots|
      ensures r.0[i..] == slots[i..]
    {
      if i == 0 then (slots, [], [])
      else
        var (s, v, f) := DrainedTo(slots, i - 1);
        var empty := Vacated(slots[i - 1]);
        assert s[i - 1..][1..] == s[i..];
        (s[i - 1 := empty], v + ValueOf(slots[i - 1]), FreeAfter(f, i - 1, empty))
    }

    static lemma MoveBoundary<X>(a: seq<X>, b: seq<X>, i: nat)
      requires 0 < i <= |a| == |b|
      ensures (a[..i - 1] + b[i - 1..])[i - 1 := a[i - 1]] == a[..i] + b[i..]
    {
    }

    static lemma {:induction false} DrainedSlots(slots: seq<RootSlot<V>>, i: nat)
      requires i <= |slots|
      ensures DrainedTo(slots, i).0 == Drained(slots)[..i] + slots[i..]
    {
      if i > 0 {
        DrainedSlots(slots, i - 1);
        MoveBoundary(Drained(slots), slots, i);
      }
    }

    static lemma {:induction false} DrainedLists(slots: seq<RootSlot<V>>, i: nat)
      requires i <= |slots|
      ensures DrainedTo(slots, i).1 == Values(slots[..i])
      ensures DrainedTo(slots, i).2 == FreeIndices(Drained(slots)[..i])
    {
      if i > 0 {
        DrainedLists(slots, i - 1);
        assert slots[..i][..i - 1] == slots[..i - 1];
        assert Drained(slots)[..i][..i - 1] == Drained(slots)[..i - 1];
      }
    }

    /** Empties every slot, whatever its state, and rebuilds the free list. */
    method Drain() returns (values: seq<V>)
      modifies this
      ensures (values, View()) == old(View()).Drain()
    {
      values := [];
      free, pendingHead, live, pending := [], None, 0, 0;
      ghost var was := slots;
      var index := 0;
      while index < |slots|
        invariant index <= |slots| == |was|
        invariant (slots, values, free) == DrainedTo(was, index)
        invariant (pendingHead, live, pending) == (None, 0, 0)
      {
        var slot := slots[index];
        assert slot == was[index..][0];
        if slot.value.Some? {
          values := values + [slot.value.value];
        } else {
          assert values + ValueOf(slot) == values;
        }
        slots := slots[index := RootSlot(SaturatingSuccessor(slot.generation), None, Live)];
        if slots[index].generation != U64_MAX {
          free := free + [index];
        }
        index := index + 1;
      }
      DrainedSlots(was, index);
      DrainedLists(was, index);
      assert Drained(was)[..index] + was[index..] == Drained(was)[..index] == Drained(was);
      assert was[..index] == was;
    }
  }
}
