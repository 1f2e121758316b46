/** The registry seen from outside: its states, its commands, and what they do to the values held. */
module RootTable {
  import opened Wrappers
  import R = RootRegistry

  type RootId = R.RootId
  type Command<V> = R.Command<V>

  ghost function Empty<V>(limit: nat): (l: R.Ledger<V>)
    ensures R.Sound(l)
  {
    R.NewIsSound<V>(limit);
    R.Ledger(R.New(limit), [], {})
  }

  /** A registry state that the operations can reach. */
  type Roots<V> = l: R.Ledger<V> | R.Sound(l) ghost witness Empty<V>(0)

  ghost function NewRoots<V>(limit: nat): Roots<V> {
    Empty<V>(limit)
  }

  ghost function Apply<V>(l: Roots<V>, c: Command<V>): Roots<V> {
    R.After(l, c)
  }

  ghost function Reply<V>(l: Roots<V>, c: Command<V>): R.Answer<V> {
    R.Reply(l, c)
  }

  ghost function Lookup<V>(l: Roots<V>, id: RootId): Option<V> {
    l.registry.Get(id)
  }

  ghost function Held<V>(l: Roots<V>): multiset<V> {
    R.Held(l)
  }

  ghost function Releasing<V>(l: Roots<V>): seq<V> {
    R.Releasing(l)
  }

  ghost function Table<V>(l: Roots<V>): map<RootId, V> {
    R.Table(l)
  }

  ghost function Live<V>(l: Roots<V>): nat {
    l.registry.live
  }

  ghost function Pending<V>(l: Roots<V>): nat {
    l.registry.pending
  }

  ghost function Issued<V>(l: Roots<V>): set<RootId> {
    l.issued
  }

  lemma Counters<V>(l: Roots<V>)
    ensures Live(l) == |Held(l)|
    ensures Pending(l) == |Releasing(l)|
  {
    R.ChainLength(l.registry.slots, l.registry.pendingHead, l.chain);
  }

  /** What is held afterwards and what was given up is what was held and what was stored. */
  lemma Conserves<V>(l: Roots<V>, c: Command<V>)
    ensures Held(Apply(l, c)) + multiset(Reply(l, c).given)
         == Held(l) + if c.DoInsert? && Reply(l, c).bound.Some? then multiset{c.value} else multiset{}
  {
    R.StepConservesValues(l, c);
  }

  /** A take removes the front of the queue, if there is one, and nothing else. */
  lemma Takes<V>(l: Roots<V>)
    ensures var m, given := Apply(l, R.DoTake), Reply(l, R.DoTake).given;
            && (given == [] <==> Releasing(l) == [])
            && Releasing(l) == given + Releasing(m)
            && multiset(Releasing(l)) == multiset(given) + multiset(Releasing(m))
            && Held(m) + multiset(given) == Held(l)
            && Table(m) == Table(l)
            && (given != [] ==> Pending(m) < Pending(l))
  {
    R.TakePendingSpec(l);
    var m, given := Apply(l, R.DoTake), Reply(l, R.DoTake).given;
    Counters(l);
    Counters(m);
    assert Releasing(l) == given + Releasing(m);
  }

  lemma TakesCount<V>(l: Roots<V>)
    ensures var m, given := Apply(l, R.DoTake), Reply(l, R.DoTake).given;
            && multiset(Releasing(l)) == multiset(given) + multiset(Releasing(m))
            && Held(m) + multiset(given) == Held(l)
            && (given == [] ==> multiset(Releasing(l)) == multiset{})
            && (given != [] ==> Pending(m) < Pending(l))
  {
    Takes(l);
  }

  /** The stored operation is the command. */
  lemma TakeIsCommand<V>(l: Roots<V>)
    ensures l.registry.Safe()
    ensures l.registry.TakePending().1 == Apply(l, R.DoTake).registry
    ensures R.Given(l.registry.TakePending().0) == Reply(l, R.DoTake).given
  {
  }

  lemma DrainIsCommand<V>(l: Roots<V>)
    ensures l.registry.Drain() == (Reply(l, R.DoDrain).given, Apply(l, R.DoDrain).registry)
  {
  }

  /** A queued root stops resolving and stays held, next in line. */
  lemma QueueingHolds<V>(l: Roots<V>, id: RootId)
    ensures Held(Apply(l, R.DoRelease(id))) == Held(l)
    ensures Table(Apply(l, R.DoRelease(id))) == Table(l) - {id}
    ensures Releasing(Apply(l, R.DoRelease(id))) == if id in Table(l) then [Table(l)[id]] + Releasing(l) else Releasing(l)
  {
    R.RequestReleaseSpec(l, id);
  }

  ghost function Limit<V>(l: Roots<V>): nat {
    l.registry.limit
  }

  /** Slots that can no longer be used. */
  ghost function Worn<V>(l: Roots<V>): nat {
    R.ExhaustedCount(l.registry.slots)
  }

  /** An insertion fails exactly when the values held, queued ones included, and the slots worn out reach the
      limit; otherwise it binds an id never issued before. */
  lemma Inserts<V>(l: Roots<V>, v: V)
    ensures Reply(l, R.DoInsert(v)).bound.None? <==> |Held(l)| + Worn(l) == Limit(l)
    ensures var r, m := Reply(l, R.DoInsert(v)).bound, Apply(l, R.DoInsert(v));
            r.Some? ==>
              && r.value !in Issued(l) && Table(m) == Table(l)[r.value := v]
              && Releasing(m) == Releasing(l) && Held(m) == Held(l) + multiset{v}
  {
    R.InsertSpec(l, v);
    Counters(l);
  }

  lemma WornWithin<V>(l: Roots<V>)
    ensures |Held(l)| + Worn(l) <= Limit(l)
  {
    Counters(l);
    R.SlotsArePartitioned(l.registry.slots);
  }

  lemma KeepsLimit<V>(l: Roots<V>, c: Command<V>)
    ensures Limit(Apply(l, c)) == Limit(l)
  {
  }

  lemma LooksUp<V>(l: Roots<V>, id: RootId)
    ensures Lookup(l, id) == if id in Table(l) then Some(Table(l)[id]) else None
  {
    R.GetIsTableLookup(l, id);
  }

  /** A removal gives up what the id resolves to. */
  lemma Removes<V>(l: Roots<V>, id: RootId)
    ensures Reply(l, R.DoRemove(id)).given == if Lookup(l, id).Some? then [Lookup(l, id).value] else []
  {
    R.RemoveSpec(l, id);
    LooksUp(l, id);
  }

  lemma RemovesOne<V>(l: Roots<V>, id: RootId)
    ensures var m := Apply(l, R.DoRemove(id)); Table(m) == Table(l) - {id} && Releasing(m) == Releasing(l)
    ensures id in Table(l) ==> Table(l)[id] in Held(l)
  {
    R.RemoveSpec(l, id);
    if id in Table(l) {
      var v := Table(l)[id];
      assert Held(Apply(l, R.DoRemove(id))) + multiset([v]) == Held(l);
      assert v in multiset([v]);
    }
  }

  predicate Unbinds<V>(c: Command<V>, id: RootId) {
    c == R.DoRemove(id) || c == R.DoRelease(id) || c.DoDrain?
  }

  /** What an issued id resolves to changes by removal, release and draining only. */
  lemma KeepsHandle<V>(l: Roots<V>, c: Command<V>, id: RootId)
    requires id in Issued(l)
    ensures var m := Apply(l, c);
            && id in Issued(m)
            && Lookup(m, id) == if Unbinds(c, id) then None else Lookup(l, id)
  {
    R.StepIsMapStep(l, c);
    LooksUp(l, id);
    LooksUp(Apply(l, c), id);
  }

  lemma Drains<V>(l: Roots<V>)
    ensures Held(Apply(l, R.DoDrain)) == multiset{} && Releasing(Apply(l, R.DoDrain)) == []
    ensures multiset(Reply(l, R.DoDrain).given) == Held(l)
    ensures |Reply(l, R.DoDrain).given| == Live(l)
    ensures Table(Apply(l, R.DoDrain)) == map[]
  {
    R.DrainSpec(l);
  }
}
