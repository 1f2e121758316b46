/** The stores behind one scope, updated in place, and the loops that empty them. */
module LocalRoots {
  import opened Words
  import opened Wrappers
  import opened JscRuntime
  import opened RootTable
  import opened JscBalance
  import RootRegistry
  import Bags
  import RootStore

  const INLINE_LOCAL_ROOTS: nat := 16
  const USIZE_MAX: nat := U64_MAX

  function Values<V>(slots: seq<Option<V>>): seq<V>
    requires forall i :: 0 <= i < |slots| ==> slots[i].Some?
  {
    seq(|slots|, i requires 0 <= i < |slots| => slots[i].value)
  }

  /** Sixteen roots inline, then a vector. */
  class LocalRoots<V> {
    const inline: array<Option<V>>
    var inlineLen: nat
    var spill: seq<V>

    ghost predicate Valid()
      reads this, inline
    {
      && inline.Length == INLINE_LOCAL_ROOTS
      && inlineLen <= INLINE_LOCAL_ROOTS
      && (forall i :: 0 <= i < inlineLen ==> inline[i].Some?)
      && (spill != [] ==> inlineLen == INLINE_LOCAL_ROOTS)
    }

    ghost function Contents(): seq<V>
      requires Valid()
      reads this, inline
    {
      Values(inline[..inlineLen]) + spill
    }

    constructor ()
      ensures Valid() && fresh(inline) && Contents() == []
    {
      inline := new Option<V>[INLINE_LOCAL_ROOTS](_ => None);
      inlineLen := 0;
      spill := [];
    }

    method Push(value: V)
      requires Valid()
      modifies this, inline
      ensures Valid() && Contents() == old(Contents()) + [value]
    {
      if inlineLen < INLINE_LOCAL_ROOTS {
        inline[inlineLen] := Some(value);
        inlineLen := inlineLen + 1;
        assert inline[..inlineLen] == old(inline[..inlineLen]) + [Some(value)];
      } else {
        spill := spill + [value];
      }
    }

    /** The values come out in the order they went in, wherever they were kept. */
    method Drain() returns (values: seq<V>)
      requires Valid()
      modifies this, inline
      ensures Valid() && values == old(Contents()) && Contents() == []
    {
      values := [];
      var i := 0;
      while i < inlineLen
        invariant i <= inlineLen <= INLINE_LOCAL_ROOTS == inline.Length
        invariant inlineLen == old(inlineLen) && spill == old(spill)
        invariant forall k :: i <= k < inlineLen ==> inline[k] == old(inline[k])
        invariant values == Values(old(inline[..inlineLen])[..i])
      {
        assert old(inline[..inlineLen])[..i + 1] == old(inline[..inlineLen])[..i] + [inline[i]];
        match inline[i] {
          case Some(value) => values := values + [value];
          case None => assert false;
        }
        inline[i] := None;
        i := i + 1;
      }
      inlineLen := 0;
      assert old(inline[..inlineLen])[..i] == old(inline[..inlineLen]);
      values := values + spill;
      spill := [];
    }
  }

  class LocalBudget {
    var used: nat
    const limit: nat

    ghost predicate Valid()
      reads this
    {
      used <= limit <= USIZE_MAX
    }

    ghost function View(): Budget
      reads this
    {
      Budget(used, limit, false)
    }

    constructor (limit: nat)
      requires limit <= USIZE_MAX
      ensures Valid() && View() == Budget(0, limit, false)
    {
      used := 0;
      this.limit := limit;
    }

    /** The addition is checked: a group too large for the machine word is refused like any other. */
    method ReserveMany(count: nat) returns (ok: bool)
      requires Valid() && count <= USIZE_MAX
      modifies this
      ensures Valid() && (ok, View()) == old(View()).ReserveMany(count)
    {
      if count == 0 {
        return true;
      }
      if used > USIZE_MAX - count {
        return false;
      }
      var next := used + count;
      if next > limit {
        return false;
      }
      used := next;
      return true;
    }

    method ReleaseMany(count: nat)
      requires Valid() && count <= used
      modifies this
      ensures Valid() && View() == old(View()).ReleaseMany(count)
    {
      used := used - count;
    }
  }

  /** The engine's protection table; an unprotect must match a protect. */
  class Context<V(==)> {
    ghost var protections: multiset<V>

    ghost function View(): Engine<V>
      reads this
    {
      Engine(protections, false)
    }

    constructor ()
      ensures View() == Engine(multiset{}, false)
    {
      protections := multiset{};
    }

    method Protect(value: V)
      modifies this
      ensures View() == old(View()).Protect(value)
    {
      protections := protections + multiset{value};
    }

    method Unprotect(value: V)
      requires value in protections
      modifies this
      ensures View() == old(View()).Unprotect(multiset{value})
    {
      protections := protections - multiset{value};
    }
  }

  method ReleaseAll<V>(values: seq<V>, budget: LocalBudget, engine: Context<V>)
    requires budget.Valid() && |values| <= budget.used && multiset(values) <= engine.protections
    modifies budget, engine
    ensures budget.Valid() && budget.View() == old(budget.View()).ReleaseMany(|values|)
    ensures engine.View() == old(engine.View()).Unprotect(multiset(values))
  {
    var i := 0;
    while i < |values|
      invariant i <= |values|
      invariant budget.Valid() && budget.used + i == old(budget.used)
      invariant engine.protections + multiset(values[..i]) == old(engine.protections)
    {
      Bags.NextOut(values, i, engine.protections, old(engine.protections));
      engine.Unprotect(values[i]);
      budget.ReleaseMany(1);
      i := i + 1;
    }
    assert values[..i] == values;
    Bags.AllOut(engine.protections, multiset(values), old(engine.protections));
  }

  /** The drop of a scope, value by value, is the bulk release of the transition system. */
  method DropScope<V>(roots: LocalRoots<V>, budget: LocalBudget, engine: Context<V>)
    requires roots.Valid() && budget.Valid()
    requires |roots.Contents()| <= budget.used && multiset(roots.Contents()) <= engine.protections
    modifies roots, roots.inline, budget, engine
    ensures roots.Valid() && roots.Contents() == []
    ensures budget.Valid() && budget.View() == old(budget.View()).ReleaseMany(|old(roots.Contents())|)
    ensures engine.View() == old(engine.View()).Unprotect(multiset(old(roots.Contents())))
  {
    var values := roots.Drain();
    ReleaseAll(values, budget, engine);
  }

  /** One round of the maintenance loop: the next queued root, if any, is taken and unprotected. */
  method ReleaseNext<V>(store: RootStore.Store<V>, engine: Context<V>, ghost l: Roots<V>) returns (done: bool)
    requires store.View() == l.registry && multiset(Releasing(l)) <= engine.protections
    modifies store, engine
    ensures done <==> Reply(l, RootRegistry.DoTake).given == []
    ensures store.View() == (if done then l else Apply(l, RootRegistry.DoTake)).registry
    ensures engine.View() == if done then old(engine.View()) else old(engine.View()).Unprotect(multiset(Reply(l, RootRegistry.DoTake).given))
  {
    Takes(l);
    TakeIsCommand(l);
    ghost var given := Reply(l, RootRegistry.DoTake).given;
    var taken := store.TakePending();
    match taken {
      case None => return true;
      case Some(value) =>
        assert given == [value];
        assert value in multiset(given);
        engine.Unprotect(value);
        return false;
    }
  }

  lemma {:induction false} Round<V>(l: Roots<V>, e: Engine<V>)
    requires multiset(Releasing(l)) <= e.protections
    ensures var m, given := Apply(l, RootRegistry.DoTake), Reply(l, RootRegistry.DoTake).given;
            if given == [] then DrainReleases(l, e) == (l, e)
            else
              && Pending(m) < Pending(l)
              && multiset(Releasing(m)) <= e.Unprotect(multiset(given)).protections
              && DrainReleases(l, e) == DrainReleases(m, e.Unprotect(multiset(given)))
  {
    Takes(l);
    var m, given := Apply(l, RootRegistry.DoTake), Reply(l, RootRegistry.DoTake).given;
    Bags.Shrink(multiset(Releasing(m)), multiset(given), multiset(Releasing(l)), e.protections);
  }

  /** The maintenance loop of an entry: it ends, having unprotected exactly the queued roots. */
  method DrainRootReleases<V>(store: RootStore.Store<V>, engine: Context<V>, ghost before: Roots<V>)
      returns (ghost after: Roots<V>)
    requires store.View() == before.registry && multiset(Releasing(before)) <= engine.protections
    modifies store, engine
    ensures store.View() == after.registry && Releasing(after) == [] && Table(after) == Table(before)
    ensures (after, engine.View()) == DrainReleases(before, old(engine.View()))
    ensures engine.View() == old(engine.View()).Unprotect(multiset(Releasing(before)))
  {
    after := before;
    DrainReleasesEmpties(before, engine.View());
    DrainReleasesUnprotects(before, engine.View());
    var done := false;
    while !done
      invariant store.View() == after.registry
      invariant multiset(Releasing(after)) <= engine.protections
      invariant DrainReleases(before, old(engine.View())) == DrainReleases(after, engine.View())
      invariant done ==> DrainReleases(after, engine.View()) == (after, engine.View())
      decreases Pending(after), !done
    {
      Round(after, engine.View());
      done := ReleaseNext(store, engine, after);
      after := if done then after else Apply(after, RootRegistry.DoTake);
    }
  }

  method UnprotectAll<V>(values: seq<V>, engine: Context<V>)
    requires multiset(values) <= engine.protections
    modifies engine
    ensures engine.View() == old(engine.View()).Unprotect(multiset(values))
  {
    var i := 0;
    while i < |values|
      invariant i <= |values|
      invariant engine.protections + multiset(values[..i]) == old(engine.protections)
    {
      Bags.NextOut(values, i, engine.protections, old(engine.protections));
      engine.Unprotect(values[i]);
      i := i + 1;
    }
    assert values[..i] == values;
    Bags.AllOut(engine.protections, multiset(values), old(engine.protections));
  }

  method UnprotectFunctions<V(==)>(functions: set<V>, engine: Context<V>)
    requires multiset(functions) <= engine.protections
    modifies engine
    ensures engine.View() == old(engine.View()).Unprotect(multiset(functions))
  {
    var left := functions;
    while left != {}
      invariant left <= functions
      invariant multiset(left) <= engine.protections
      invariant engine.protections + multiset(functions - left) == old(engine.protections)
      decreases left
    {
      var f :| f in left;
      assert f in multiset(left);
      Bags.AddMember(functions - left, f);
      assert functions - (left - {f}) == functions - left + {f};
      Bags.RemoveMember(left, f);
      engine.Unprotect(f);
      left := left - {f};
    }
    assert functions - left == functions;
    Bags.AllOut(engine.protections, multiset(functions), old(engine.protections));
  }

  /** `release_engine_resources`: the loops over the drained roots and the registered functions unprotect
    exactly what the attachment owned, and the counts they report are the numbers of each. */
  method ReleaseResources<V(==)>(store: RootStore.Store<V>, functions: set<V>, engine: Context<V>, ghost before: Roots<V>)
      returns (rootCount: nat, functionCount: nat)
    requires store.View() == before.registry
    requires Held(before) + multiset(functions) <= engine.protections
    modifies store, engine
    ensures store.View() == Apply(before, RootRegistry.DoDrain).registry
    ensures engine.View() == old(engine.View()).Unprotect(Held(before) + multiset(functions))
    ensures rootCount == |Held(before)| && functionCount == |functions|
  {
    Drains(before);
    Counters(before);
    DrainIsCommand(before);
    var roots := store.Drain();
    UnprotectTwice(engine.View(), multiset(roots), multiset(functions), Held(before) + multiset(functions));
    UnprotectAll(roots, engine);
    UnprotectFunctions(functions, engine);
    return |roots|, |functions|;
  }
}
