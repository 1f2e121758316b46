/** The deterministic backend: scoped values, strong roots, and external buffers with counted owners.

  A slot map is seen here as a table of live ids that never binds an id twice; `SlotMaps` proves that
  the stored form is one.
*/
module ModelBackend {
  import opened Words
  import opened Wrappers
  import RootRegistry

  const ISIZE_MAX: nat := 0x7FFF_FFFF_FFFF_FFFF

  type Id = RootRegistry.RootId

  /** An owner is named by its place among all owners ever accepted. */
  datatype Entry = Primitive | Function | External(owner: nat)

  datatype Stats = Stats(accepted: nat, liveBytes: nat, finalized: nat)

  /** `everAccepted` counts without a limit; no operation of the source reads it. */
  datatype Backend = Backend(
    values: map<Id, Entry>,
    roots: map<Id, Id>,
    issuedValues: set<Id>,
    issuedRoots: set<Id>,
    locals: Option<set<Id>>,     // those of the open scope
    owners: map<nat, nat>,       // live owners and their lengths
    views: map<nat, nat>,        // outstanding views and the owners they share
    everAccepted: nat,
    stats: Stats)

  datatype Fault = NoFault | Reject | AcceptThenFail

  datatype Step =
    | OpenScope
    | CloseScope
    | Insert(id: Id, function_: bool)
    | Externalize(id: Id, length: nat, fault: Fault)
    | Persist(value: Id, root: Id)
    | Resolve(root: Id)
    | Release(root: Id)
    | View(value: Id, view: nat)
    | DropView(view: nat)

  predicate Rooted(b: Backend, v: Id) {
    v in b.roots.Values
  }

  predicate Shared(b: Backend, owner: nat) {
    External(owner) in b.values.Values || owner in b.views.Values
  }

  function SaturatingAdd(a: nat, n: nat): nat {
    if a + n <= U64_MAX then a + n else U64_MAX
  }

  function SaturatingSub(a: nat, n: nat): nat {
    if n <= a then a - n else 0
  }

  /** `ModelExternalOwner::accept`. */
  function Accept(b: Backend, length: nat): Backend {
    b.(owners := b.owners[b.everAccepted := length],
       everAccepted := b.everAccepted + 1,
       stats := b.stats.(accepted := SaturatingAdd(b.stats.accepted, 1),
                         liveBytes := SaturatingAdd(b.stats.liveBytes, length)))
  }

  /** The owner's destructor, if its last reference is gone. */
  function Settle(b: Backend, owner: nat): Backend {
    if owner !in b.owners || Shared(b, owner) then b
    else
      b.(owners := b.owners - {owner},
         stats := b.stats.(liveBytes := SaturatingSub(b.stats.liveBytes, b.owners[owner]),
                           finalized := SaturatingAdd(b.stats.finalized, 1)))
  }

  function RemoveValue(b: Backend, v: Id): Backend {
    if v !in b.values then b
    else
      var c := b.(values := b.values - {v});
      if b.values[v].External? then Settle(c, b.values[v].owner) else c
  }

  function Unroot(b: Backend, v: Id): Backend {
    if Rooted(b, v) then b else RemoveValue(b, v)
  }

  /** The loop of the scope's drop, in whatever order the set yields. */
  ghost function DropLocals(b: Backend, todo: set<Id>): Backend
    decreases todo
  {
    if todo == {} then b
    else
      var v :| v in todo;
      DropLocals(Unroot(b, v), todo - {v})
  }

  function AddLocal(b: Backend, v: Id): Backend
    requires b.locals.Some?
  {
    b.(locals := Some(b.locals.value + {v}))
  }

  function InsertValue(b: Backend, id: Id, e: Entry): Backend
    requires b.locals.Some?
  {
    AddLocal(b.(values := b.values[id := e], issuedValues := b.issuedValues + {id}), id)
  }

  /** A boxed slice is at most `isize::MAX` bytes long, and stands beside the live ones in one address
    space. */
  ghost predicate Fits(b: Backend, length: nat) {
    length <= ISIZE_MAX && Sum(b.owners) + length <= U64_MAX
  }

  ghost function DoExternalize(b: Backend, id: Id, length: nat, fault: Fault): Backend
    requires b.locals.Some?
  {
    match fault
    case Reject => b
    case AcceptThenFail => Settle(Accept(b, length), b.everAccepted)
    case NoFault => InsertValue(Accept(b, length), id, External(b.everAccepted))
  }

  function DoRelease(b: Backend, root: Id): Backend
    requires b.locals.Some? && root in b.roots
  {
    var v := b.roots[root];
    var c := b.(roots := b.roots - {root});
    if v in b.locals.value then c else Unroot(c, v)
  }

  /** Ids of new values and roots are any that were never issued. */
  ghost function Next(b: Backend, s: Step): Backend {
    match s
    case OpenScope => if b.locals.None? then b.(locals := Some({})) else b
    case CloseScope => if b.locals.Some? then DropLocals(b, b.locals.value).(locals := None) else b
    case Insert(id, function_) =>
      if b.locals.Some? && id !in b.issuedValues then InsertValue(b, id, if function_ then Function else Primitive) else b
    case Externalize(id, length, fault) =>
      if b.locals.Some? && id !in b.issuedValues && Fits(b, length) then DoExternalize(b, id, length, fault) else b
    case Persist(v, root) =>
      if b.locals.Some? && v in b.values && root !in b.issuedRoots
      then b.(roots := b.roots[root := v], issuedRoots := b.issuedRoots + {root})
      else b
    case Resolve(root) =>
      if b.locals.Some? && root in b.roots && b.roots[root] in b.values then AddLocal(b, b.roots[root]) else b
    case Release(root) => if b.locals.Some? && root in b.roots then DoRelease(b, root) else b
    case View(v, view) =>
      if b.locals.Some? && v in b.values && b.values[v].External? && view !in b.views
      then b.(views := b.views[view := b.values[v].owner])
      else b
    case DropView(view) =>
      if view in b.views then Settle(b.(views := b.views - {view}), b.views[view]) else b
  }

  const EMPTY := Backend(map[], map[], {}, {}, None, map[], map[], 0, Stats(0, 0, 0))

  ghost function Run(steps: seq<Step>): Backend
    decreases |steps|
  {
    if steps == [] then EMPTY else Next(Run(steps[..|steps| - 1]), steps[|steps| - 1])
  }

  ghost function Sum(owners: map<nat, nat>): nat
    decreases |owners|
  {
    if owners == map[] then 0
    else
      var o :| o in owners;
      owners[o] + Sum(owners - {o})
  }

  lemma {:induction false} TakeOut(owners: map<nat, nat>, o: nat)
    requires o in owners
    ensures Sum(owners) == owners[o] + Sum(owners - {o})
    decreases |owners|
  {
    var p :| p in owners && Sum(owners) == owners[p] + Sum(owners - {p});
    if p != o {
      TakeOut(owners - {p}, o);
      TakeOut(owners - {o}, p);
      assert owners - {p} - {o} == owners - {o} - {p};
    }
  }

  /** Values live exactly while a root or the open scope names them. */
  ghost predicate Reachable(b: Backend) {
    && (forall r :: r in b.roots ==> b.roots[r] in b.values)
    && (b.locals.Some? ==> b.locals.value <= b.values.Keys)
    && (forall v :: v in b.values ==> Rooted(b, v) || (b.locals.Some? && v in b.locals.value))
    && b.values.Keys <= b.issuedValues
    && b.roots.Keys <= b.issuedRoots
  }

  /** Owners live exactly while a value or a view shares them, each in one value at most. */
  ghost predicate Owned(b: Backend) {
    && (forall o :: o in b.owners <==> Shared(b, o))
    && (forall o :: o in b.owners ==> o < b.everAccepted)
    && (forall v, w :: v in b.values && w in b.values && v != w && b.values[v].External? ==> b.values[v] != b.values[w])
  }

  function Clamp(n: nat): nat {
    if n <= U64_MAX then n else U64_MAX
  }

  ghost predicate Counted(b: Backend) {
    && |b.owners| <= b.everAccepted
    && b.stats.accepted == Clamp(b.everAccepted)
    && b.stats.finalized == Clamp(b.everAccepted - |b.owners|)
    && b.stats.liveBytes == Sum(b.owners) <= U64_MAX
  }

  ghost predicate Inv(b: Backend) {
    Reachable(b) && Owned(b) && Counted(b)
  }

  lemma AcceptCounts(b: Backend, length: nat)
    requires Counted(b) && b.everAccepted !in b.owners && Fits(b, length)
    ensures Counted(Accept(b, length))
  {
    var after := b.owners[b.everAccepted := length];
    TakeOut(after, b.everAccepted);
    assert after - {b.everAccepted} == b.owners;
  }

  lemma SettleCounts(b: Backend, owner: nat)
    requires Counted(b)
    ensures Counted(Settle(b, owner))
  {
    if owner in b.owners {
      TakeOut(b.owners, owner);
      assert b.owners.Keys == (b.owners - {owner}).Keys + {owner};
      assert |b.owners| == |b.owners.Keys| && |b.owners - {owner}| == |(b.owners - {owner}).Keys|;
    }
  }

  /** A value goes: whoever shares another owner still does. */
  lemma OtherSharesStay(b: Backend, v: Id)
    requires v in b.values
    ensures forall o :: b.values[v] != External(o) ==> (Shared(b.(values := b.values - {v}), o) <==> Shared(b, o))
  {
    var c := b.(values := b.values - {v});
    forall o | b.values[v] != External(o) && External(o) in b.values.Values
      ensures External(o) in c.values.Values
    {
      var w :| w in b.values && b.values[w] == External(o);
      assert w in c.values && c.values[w] == External(o);
    }
  }

  /** Its own owner goes with it unless a view remains. */
  lemma RemoveOwns(b: Backend, v: Id)
    requires Owned(b)
    ensures Owned(RemoveValue(b, v))
  {
    if v in b.values {
      OtherSharesStay(b, v);
      var c := b.(values := b.values - {v});
      assert forall w :: w in c.values ==> w in b.values && c.values[w] == b.values[w];
      if b.values[v].External? {
        var d := Settle(c, b.values[v].owner);
        assert forall o :: Shared(d, o) == Shared(c, o);
      }
    }
  }

  lemma RemoveCounts(b: Backend, v: Id)
    requires Counted(b)
    ensures Counted(RemoveValue(b, v))
  {
    if v in b.values && b.values[v].External? {
      SettleCounts(b.(values := b.values - {v}), b.values[v].owner);
    }
  }

  /** All of the invariant but for the scope being dropped: values live that a root or one of `todo` names. */
  ghost predicate Dropping(b: Backend, todo: set<Id>) {
    && (forall r :: r in b.roots ==> b.roots[r] in b.values)
    && todo <= b.values.Keys
    && (forall v :: v in b.values ==> Rooted(b, v) || v in todo)
    && b.values.Keys <= b.issuedValues
    && b.roots.Keys <= b.issuedRoots
    && Owned(b) && Counted(b)
  }

  lemma UnrootKeeps(b: Backend, v: Id, todo: set<Id>)
    requires Dropping(b, todo) && v in todo
    ensures Dropping(Unroot(b, v), todo - {v})
  {
    RemoveOwns(b, v);
    RemoveCounts(b, v);
  }

  lemma {:induction false} DropLocalsKeeps(b: Backend, todo: set<Id>)
    requires Dropping(b, todo)
    ensures Dropping(DropLocals(b, todo), {})
    decreases todo
  {
    if todo != {} {
      var v :| v in todo && DropLocals(b, todo) == DropLocals(Unroot(b, v), todo - {v});
      UnrootKeeps(b, v, todo);
      DropLocalsKeeps(Unroot(b, v), todo - {v});
    }
  }

  lemma {:induction false} DropLocalsShape(b: Backend, todo: set<Id>)
    ensures DropLocals(b, todo).roots == b.roots && DropLocals(b, todo).locals == b.locals
    decreases todo
  {
    if todo != {} {
      var v :| v in todo && DropLocals(b, todo) == DropLocals(Unroot(b, v), todo - {v});
      DropLocalsShape(Unroot(b, v), todo - {v});
    }
  }

  lemma InsertKeeps(b: Backend, id: Id, e: Entry)
    requires Inv(b) && b.locals.Some? && id !in b.issuedValues && !e.External?
    ensures Inv(InsertValue(b, id, e))
  {
    var c := InsertValue(b, id, e);
    assert id !in b.values;
    OthersStay(b, c, id);
  }

  /** Adding a value under a new id leaves the others where they were. */
  lemma OthersStay(b: Backend, c: Backend, id: Id)
    requires id !in b.values && id in c.values && c.values == b.values[id := c.values[id]] && c.views == b.views
    ensures forall o :: c.values[id] != External(o) ==> (Shared(c, o) <==> Shared(b, o))
  {
    forall o | c.values[id] != External(o)
      ensures Shared(c, o) <==> Shared(b, o)
    {
      if External(o) in b.values.Values {
        var w :| w in b.values && b.values[w] == External(o);
        assert c.values[w] == External(o);
      }
    }
  }

  lemma AcceptedOwns(b: Backend, id: Id, length: nat)
    requires Owned(b) && b.locals.Some? && id !in b.values
    ensures Owned(InsertValue(Accept(b, length), id, External(b.everAccepted)))
  {
    var o := b.everAccepted;
    var c := InsertValue(Accept(b, length), id, External(o));
    assert o !in b.owners;
    assert c.values[id] == External(o);
    OthersStay(b, c, id);
    assert !Shared(b, o);
  }

  lemma AcceptedKeeps(b: Backend, id: Id, length: nat)
    requires Inv(b) && b.locals.Some? && id !in b.issuedValues && Fits(b, length)
    ensures Inv(InsertValue(Accept(b, length), id, External(b.everAccepted)))
  {
    assert b.everAccepted !in b.owners;
    AcceptCounts(b, length);
    AcceptedOwns(b, id, length);
  }

  lemma OwnedAside(b: Backend, d: Backend)
    requires Owned(b) && d.values == b.values && d.views == b.views && d.owners == b.owners && b.everAccepted <= d.everAccepted
    ensures Owned(d)
  {
    assert forall o :: Shared(d, o) == Shared(b, o);
  }

  lemma AcceptThenDrop(b: Backend, length: nat)
    requires Owned(b)
    ensures var d := Settle(Accept(b, length), b.everAccepted);
            d == b.(everAccepted := b.everAccepted + 1, stats := d.stats)
  {
    var o := b.everAccepted;
    var c := Accept(b, length);
    assert !Shared(b, o) && !Shared(c, o);
    assert c.owners - {o} == b.owners;
  }

  /** An owner dropped right after it was accepted leaves only its trace in the counters. */
  lemma RejectedAfterAccept(b: Backend, length: nat)
    requires Inv(b) && Fits(b, length)
    ensures Inv(Settle(Accept(b, length), b.everAccepted))
  {
    AcceptThenDrop(b, length);
    OwnedAside(b, Settle(Accept(b, length), b.everAccepted));
    AcceptCounts(b, length);
    SettleCounts(Accept(b, length), b.everAccepted);
  }

  lemma PersistKeeps(b: Backend, v: Id, root: Id)
    requires Inv(b)
    ensures Inv(Next(b, Persist(v, root)))
  {
    var c := Next(b, Persist(v, root));
    if c != b {
      forall w | Rooted(b, w)
        ensures Rooted(c, w)
      {
        var r :| r in b.roots && b.roots[r] == w;
        assert c.roots[r] == w;
      }
    }
  }

  lemma OtherRootsStay(b: Backend, root: Id)
    requires root in b.roots
    ensures forall w :: Rooted(b, w) && w != b.roots[root] ==> Rooted(b.(roots := b.roots - {root}), w)
    ensures forall w :: Rooted(b.(roots := b.roots - {root}), w) ==> Rooted(b, w)
  {
    var c := b.(roots := b.roots - {root});
    forall w | Rooted(b, w) && w != b.roots[root]
      ensures Rooted(c, w)
    {
      var r :| r in b.roots && b.roots[r] == w;
      assert r in c.roots && c.roots[r] == w;
    }
  }

  lemma UnrootShape(b: Backend, v: Id)
    ensures var c := Unroot(b, v);
            && c.values == (if Rooted(b, v) then b.values else b.values - {v})
            && (c.roots, c.locals, c.issuedValues, c.issuedRoots) == (b.roots, b.locals, b.issuedValues, b.issuedRoots)
  {
    assert v !in b.values ==> b.values - {v} == b.values;
  }

  lemma ReleaseReaches(b: Backend, root: Id)
    requires Reachable(b) && b.locals.Some? && root in b.roots
    ensures Reachable(DoRelease(b, root))
    ensures forall v :: v in b.values && v != b.roots[root] ==> v in DoRelease(b, root).values
    ensures b.roots[root] in DoRelease(b, root).values <==> b.roots[root] in b.locals.value || Rooted(DoRelease(b, root), b.roots[root])
    ensures DoRelease(b, root).roots == b.roots - {root}
  {
    OtherRootsStay(b, root);
    UnrootShape(b.(roots := b.roots - {root}), b.roots[root]);
  }

  lemma ReleaseKeeps(b: Backend, root: Id)
    requires Inv(b) && b.locals.Some? && root in b.roots
    ensures Inv(DoRelease(b, root))
  {
    ReleaseReaches(b, root);
    var c := b.(roots := b.roots - {root});
    assert forall o :: Shared(c, o) == Shared(b, o);
    assert Owned(c) && Counted(c);
    RemoveOwns(c, b.roots[root]);
    RemoveCounts(c, b.roots[root]);
  }

  lemma ViewKeeps(b: Backend, v: Id, view: nat)
    requires Inv(b)
    ensures Inv(Next(b, View(v, view)))
  {
    var c := Next(b, View(v, view));
    if c != b {
      var owner := b.values[v].owner;
      assert Shared(b, owner);
      forall o
        ensures Shared(c, o) <==> Shared(b, o)
      {
        if o in b.views.Values {
          var w :| w in b.views && b.views[w] == o;
          assert c.views[w] == o;
        }
      }
    }
  }

  lemma OtherViewsStay(b: Backend, view: nat)
    requires view in b.views
    ensures forall o :: o != b.views[view] ==> (Shared(b.(views := b.views - {view}), o) <==> Shared(b, o))
  {
    var c := b.(views := b.views - {view});
    forall o | o != b.views[view]
      ensures Shared(c, o) <==> Shared(b, o)
    {
      if o in b.views.Values {
        var w :| w in b.views && b.views[w] == o;
        assert w in c.views && c.views[w] == o;
      }
    }
  }

  lemma DropViewOwns(b: Backend, view: nat)
    requires Owned(b) && view in b.views
    ensures Owned(Settle(b.(views := b.views - {view}), b.views[view]))
  {
    var owner := b.views[view];
    var c := b.(views := b.views - {view});
    OtherViewsStay(b, view);
    assert Shared(b, owner);
    assert forall o :: Shared(Settle(c, owner), o) == Shared(c, o);
  }

  lemma DropViewKeeps(b: Backend, view: nat)
    requires Inv(b) && view in b.views
    ensures Inv(Settle(b.(views := b.views - {view}), b.views[view]))
  {
    DropViewOwns(b, view);
    SettleCounts(b.(views := b.views - {view}), b.views[view]);
  }

  lemma {:induction false} CloseScopeKeeps(b: Backend)
    requires Inv(b) && b.locals.Some?
    ensures Inv(DropLocals(b, b.locals.value).(locals := None))
  {
    DropLocalsKeeps(b, b.locals.value);
    var c := DropLocals(b, b.locals.value);
    assert forall o :: Shared(c.(locals := None), o) == Shared(c, o);
  }

  lemma ScopeStepKeeps(b: Backend, s: Step)
    requires Inv(b) && (s.OpenScope? || s.CloseScope? || s.Resolve? || s.Release?)
    ensures Inv(Next(b, s))
  {
    match s
    case OpenScope =>
    case CloseScope => if b.locals.Some? { CloseScopeKeeps(b); }
    case Resolve(root) =>
    case Release(root) => if b.locals.Some? && root in b.roots { ReleaseKeeps(b, root); }
  }

  lemma StepKeepsInv(b: Backend, s: Step)
    requires Inv(b)
    ensures Inv(Next(b, s))
  {
    match s
    case Insert(id, function_) =>
      if b.locals.Some? && id !in b.issuedValues { InsertKeeps(b, id, if function_ then Function else Primitive); }
    case Externalize(id, length, fault) =>
      if b.locals.Some? && id !in b.issuedValues && Fits(b, length) {
        AcceptedKeeps(b, id, length);
        RejectedAfterAccept(b, length);
      }
    case Persist(v, root) => PersistKeeps(b, v, root);
    case View(v, view) => ViewKeeps(b, v, view);
    case DropView(view) => if view in b.views { DropViewKeeps(b, view); }
    case _ => ScopeStepKeeps(b, s);
  }

  lemma {:induction false} RunKeepsInv(steps: seq<Step>)
    ensures Inv(Run(steps))
    decreases |steps|
  {
    if steps != [] {
      RunKeepsInv(steps[..|steps| - 1]);
      StepKeepsInv(Run(steps[..|steps| - 1]), steps[|steps| - 1]);
    }
  }

  /** Each root names a live value, so resolving a live root always succeeds; every handle the open
      scope has given out is still valid; and nothing else is alive. */
  lemma {:induction false} LiveMeansReachable(steps: seq<Step>)
    ensures var b := Run(steps);
            && (forall r :: r in b.roots ==> b.roots[r] in b.values)
            && b.values.Keys == b.roots.Values + (if b.locals.Some? then b.locals.value else {})
  {
    RunKeepsInv(steps);
  }

  /** After a scope closes, exactly the rooted values remain. */
  lemma {:induction false} ScopeCloseLeavesRoots(steps: seq<Step>)
    requires Run(steps).locals.Some?
    ensures Run(steps + [CloseScope]).values.Keys == Run(steps).roots.Values
    ensures Run(steps + [CloseScope]).roots == Run(steps).roots
  {
    RunKeepsInv(steps);
    assert (steps + [CloseScope])[..|steps|] == steps;
    DropLocalsShape(Run(steps), Run(steps).locals.value);
    LiveMeansReachable(steps + [CloseScope]);
  }

  /** A released root's value survives in the scope that can still name it, or under another root;
      otherwise it is gone at once. */
  lemma {:induction false} ReleaseRemovesExactly(steps: seq<Step>, root: Id)
    requires Run(steps).locals.Some? && root in Run(steps).roots
    ensures var b, c := Run(steps), Next(Run(steps), Release(root));
            && c.roots == b.roots - {root}
            && (forall v :: v in b.values && v != b.roots[root] ==> v in c.values)
            && (b.roots[root] in c.values <==> b.roots[root] in b.locals.value || Rooted(c, b.roots[root]))
  {
    RunKeepsInv(steps);
    ReleaseReaches(Run(steps), root);
  }

  /** A handle resolved from a root outlives the root: the scope keeps the value. */
  lemma {:induction false} ResolvedOutlivesRelease(steps: seq<Step>, root: Id)
    requires Run(steps).locals.Some? && root in Run(steps).roots
    ensures var b := Run(steps);
            var c := Next(Next(b, Resolve(root)), Release(root));
            && root !in c.roots && b.roots[root] in c.values && c.values[b.roots[root]] == b.values[b.roots[root]]
  {
    RunKeepsInv(steps);
  }

  /** `live_bytes` is always the total length of the live owners. The two counts of owners are exact if
      and only if they fit their word, and their difference is the number of live owners if and only if
      the count of accepted ones fits or nothing is live. */
  lemma {:induction false} StatisticsAreExact(steps: seq<Step>)
    ensures var b := Run(steps);
            && (forall o :: o in b.owners <==> Shared(b, o))
            && b.stats.liveBytes == Sum(b.owners)
            && (b.stats.accepted == b.everAccepted <==> b.everAccepted <= U64_MAX)
            && (b.stats.finalized == b.everAccepted - |b.owners| <==> b.everAccepted - |b.owners| <= U64_MAX)
            && (b.stats.accepted - b.stats.finalized == |b.owners| <==> b.everAccepted <= U64_MAX || b.owners == map[])
  {
    RunKeepsInv(steps);
  }

  /** A view keeps its owner alive whatever happens to the value it was taken from. */
  lemma {:induction false} ViewsKeepOwners(steps: seq<Step>, view: nat)
    requires view in Run(steps).views
    ensures Run(steps).views[view] in Run(steps).owners
  {
    RunKeepsInv(steps);
  }

  /** A scope in which `n` transfers in a row failed after acceptance. */
  function Transfers(id: Id, n: nat): seq<Step> {
    if n == 0 then [OpenScope] else Transfers(id, n - 1) + [Externalize(id, 0, AcceptThenFail)]
  }

  ghost function Transferred(n: nat): Backend {
    EMPTY.(locals := Some({}), everAccepted := n, stats := Stats(Clamp(n), 0, Clamp(n)))
  }

  lemma OneMoreTransfer(id: Id, n: nat)
    ensures Next(Transferred(n), Externalize(id, 0, AcceptThenFail)) == Transferred(n + 1)
  {
    var b := Transferred(n);
    assert Sum(b.owners) == 0;
    AcceptThenDrop(b, 0);
    assert !Shared(Accept(b, 0), n);
  }

  lemma {:induction false} TransfersAreAccepted(id: Id, n: nat)
    ensures Run(Transfers(id, n)) == Transferred(n)
  {
    if n == 0 {
      assert [OpenScope][..0] == [];
    } else {
      TransfersAreAccepted(id, n - 1);
      OneMoreTransfer(id, n - 1);
      assert Transfers(id, n)[..|Transfers(id, n - 1)|] == Transfers(id, n - 1);
    }
  }

  /** Runs that long exist: past the word the two counts stand still. */
  lemma {:induction false} CountsSaturate(id: Id, n: nat)
    requires n > U64_MAX
    ensures var b := Run(Transfers(id, n));
            b.everAccepted == n && b.stats == Stats(U64_MAX, 0, U64_MAX)
  {
    TransfersAreAccepted(id, n);
  }
}
