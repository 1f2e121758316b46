/** Every protection the engine holds has exactly one owner, after every step. */
module JscBalance {
  import opened Wrappers
  import opened RootTable
  import R = RootRegistry
  import Bags
  import opened Entry
  import opened JscRuntime

  /** The protections the attachment owes: registry values, host functions, scoped and argument
    roots, and those given up without engine entry. */
  ghost function Owed<V>(s: Jsc<V>): multiset<V> {
    Held(s.roots) + multiset(s.functions) + Rooted(s.frames) + s.abandoned
  }

  ghost predicate Balanced<V>(s: Jsc<V>) {
    !s.engine.faulted && s.engine.protections == Owed(s)
  }

  ghost predicate Budgeted<V>(s: Jsc<V>) {
    !s.budget.unbalanced && s.budget.used == Admitted(s.frames) && s.budget.used <= s.budget.limit
  }

  /** The functions still to be published are registered, each once. */
  ghost predicate Registered<V>(frames: seq<Frame<V>>, functions: set<V>)
    decreases |frames|
  {
    frames != [] ==>
      var top, below := frames[|frames| - 1], frames[..|frames| - 1];
      if top.Publishing? then top.callee in functions && Registered(below, functions - {top.callee})
      else Registered(below, functions)
  }

  /** The outermost frame is an entry, and every entry is counted by the gate. */
  ghost predicate Entered<V>(s: Jsc<V>) {
    && s.gate.entries == Entries(s.frames)
    && (s.frames != [] ==> s.frames[0].Scope? && s.frames[0].entry)
  }

  ghost predicate Settled(g: Gate) {
    && !g.cleanup
    && (g.state.Active? || g.state.Draining? <==> g.finalEntry.None?)
    && (g.finalEntry.Some? ==> g.entries == 0)
    && (g.policy.NeverAvailable? ==> g.finalEntry != Some(Completed))
    && (g.policy.Guaranteed? ==> g.finalEntry != Some(Unavailable))
    && !g.state.Invalid?
  }

  ghost predicate Framed<V>(s: Jsc<V>) {
    && Registered(s.frames, s.functions)
    && Entered(s)
    && Settled(s.gate)
  }

  ghost predicate Inv<V>(s: Jsc<V>) {
    Balanced(s) && Budgeted(s) && Framed(s)
  }

  lemma {:induction false} PushFrame<V>(frames: seq<Frame<V>>, f: Frame<V>)
    ensures Rooted(frames + [f]) == Rooted(frames) + multiset(FrameValues(f))
    ensures Admitted(frames + [f]) == Admitted(frames) + FrameHolds(f)
    ensures Entries(frames + [f]) == Entries(frames) + if f.Scope? && f.entry then 1 else 0
    ensures (frames + [f])[..|frames|] == frames
  {
    assert (frames + [f])[..|frames|] == frames;
  }

  lemma RootedApart<V>(below: seq<Frame<V>>, f: Frame<V>)
    ensures Rooted(below + [f]) == Rooted(below) + multiset(FrameValues(f))
  {
    assert (below + [f])[..|below|] == below;
  }

  lemma GrowTop<V>(below: seq<Frame<V>>, f: Frame<V>, v: V)
    requires f.Scope?
    ensures Rooted(below + [f.(roots := f.roots + [v])]) == Rooted(below + [f]) + multiset{v}
  {
    RootedApart(below, f);
    RootedApart(below, f.(roots := f.roots + [v]));
    Bags.Append(Rooted(below), f.roots, v);
  }

  lemma GrowBelow<V>(below: seq<Frame<V>>, after: seq<Frame<V>>, f: Frame<V>, v: V)
    requires Rooted(after) == Rooted(below) + multiset{v}
    ensures Rooted(after + [f]) == Rooted(below + [f]) + multiset{v}
  {
    RootedApart(below, f);
    RootedApart(after, f);
    Bags.AddTo(Rooted(below), multiset{v}, multiset(FrameValues(f)));
  }

  lemma {:induction false} GrowRooted<V>(frames: seq<Frame<V>>, k: nat, v: V)
    requires k < |frames| && frames[k].Scope?
    ensures Rooted(frames[k := frames[k].(roots := frames[k].roots + [v])]) == Rooted(frames) + multiset{v}
  {
    var n := |frames| - 1;
    var after := frames[k := frames[k].(roots := frames[k].roots + [v])];
    assert frames == frames[..n] + [frames[n]] && after == after[..n] + [after[n]];
    if k == n {
      assert after[..n] == frames[..n];
      GrowTop(frames[..n], frames[n], v);
    } else {
      assert after[..n] == frames[..n][k := after[k]];
      GrowRooted(frames[..n], k, v);
      GrowBelow(frames[..n], after[..n], frames[n], v);
    }
  }

  lemma {:induction false} GrowAdmitted<V>(frames: seq<Frame<V>>, k: nat, v: V)
    requires k < |frames| && frames[k].Scope?
    ensures var after := frames[k := frames[k].(roots := frames[k].roots + [v])];
            Admitted(after) == Admitted(frames) + 1 && Entries(after) == Entries(frames)
  {
    var n := |frames| - 1;
    var after := frames[k := frames[k].(roots := frames[k].roots + [v])];
    if k == n {
      assert after[..n] == frames[..n];
    } else {
      assert after[..n] == frames[..n][k := after[k]];
      GrowAdmitted(frames[..n], k, v);
    }
  }

  /** A scope that takes one more root. */
  lemma GrowScope<V>(frames: seq<Frame<V>>, k: nat, v: V)
    requires k < |frames| && frames[k].Scope?
    ensures var after := frames[k := frames[k].(roots := frames[k].roots + [v])];
            && Rooted(after) == Rooted(frames) + multiset{v}
            && Admitted(after) == Admitted(frames) + 1
            && Entries(after) == Entries(frames)
  {
    GrowRooted(frames, k, v);
    GrowAdmitted(frames, k, v);
  }

  lemma {:induction false} GrowScopeRegistered<V>(frames: seq<Frame<V>>, k: nat, v: V, functions: set<V>)
    requires k < |frames| && frames[k].Scope? && Registered(frames, functions)
    ensures Registered(frames[k := frames[k].(roots := frames[k].roots + [v])], functions)
    decreases |frames|
  {
    var n := |frames| - 1;
    var after := frames[k := frames[k].(roots := frames[k].roots + [v])];
    if k == n {
      assert after[..n] == frames[..n];
    } else {
      assert after[..n] == frames[..n][k := after[k]];
      GrowScopeRegistered(frames[..n], k, v, if frames[n].Publishing? then functions - {frames[n].callee} else functions);
    }
  }

  lemma {:induction false} MoreFunctions<V>(frames: seq<Frame<V>>, functions: set<V>, more: set<V>)
    requires Registered(frames, functions) && functions <= more
    ensures Registered(frames, more)
    decreases |frames|
  {
    if frames != [] {
      var n := |frames| - 1;
      if frames[n].Publishing? {
        MoreFunctions(frames[..n], functions - {frames[n].callee}, more - {frames[n].callee});
      } else {
        MoreFunctions(frames[..n], functions, more);
      }
    }
  }

  /** Draining releases empties the queue and leaves every live root alone. */
  lemma {:induction false} DrainReleasesEmpties<V>(l: Roots<V>, e: Engine<V>)
    ensures var m := DrainReleases(l, e).0; Releasing(m) == [] && Table(m) == Table(l)
    decreases Pending(l)
  {
    Takes(l);
    var m, given := Apply(l, R.DoTake), Reply(l, R.DoTake).given;
    if given != [] {
      DrainReleasesEmpties(m, e.Unprotect(multiset(given)));
    }
  }

  /** It gives up exactly the queued values. */
  lemma {:induction false} DrainReleasesGivesUp<V>(l: Roots<V>, e: Engine<V>)
    ensures Held(DrainReleases(l, e).0) + multiset(Releasing(l)) == Held(l)
    decreases Pending(l)
  {
    TakesCount(l);
    var m, given := Apply(l, R.DoTake), Reply(l, R.DoTake).given;
    if given != [] {
      DrainReleasesGivesUp(m, e.Unprotect(multiset(given)));
      Bags.Chain(Held(DrainReleases(l, e).0), multiset(Releasing(m)), Held(m), multiset(given), Held(l));
    }
  }

  lemma UnprotectTwice<V>(e: Engine<V>, first: multiset<V>, second: multiset<V>, both: multiset<V>)
    requires both == first + second && both <= e.protections
    ensures second <= e.Unprotect(first).protections
    ensures e.Unprotect(first).Unprotect(second) == e.Unprotect(both)
  {
    Bags.TakeTwice(e.protections, first, second);
  }

  /** It unprotects exactly the queued values. */
  lemma {:induction false} DrainReleasesUnprotects<V>(l: Roots<V>, e: Engine<V>)
    requires multiset(Releasing(l)) <= e.protections
    ensures DrainReleases(l, e).1 == e.Unprotect(multiset(Releasing(l)))
    decreases Pending(l)
  {
    Takes(l);
    var m, given := Apply(l, R.DoTake), Reply(l, R.DoTake).given;
    if given == [] {
      Bags.Nothing(e.protections, Releasing(l));
    } else {
      var f := e.Unprotect(multiset(given));
      UnprotectTwice(e, multiset(given), multiset(Releasing(m)), multiset(Releasing(l)));
      DrainReleasesUnprotects(m, f);
      assert DrainReleases(l, e).1 == DrainReleases(m, f).1;
    }
  }

  lemma DrainReleasesBalances<V>(s: Jsc<V>)
    requires Balanced(s)
    ensures Balanced(DoDrainReleases(s))
  {
    var t := DoDrainReleases(s);
    var released := multiset(Releasing(s.roots));
    var others := multiset(s.functions) + Rooted(s.frames) + s.abandoned;
    DrainReleasesGivesUp(s.roots, s.engine);
    Bags.TakeFrom(Held(t.roots), released, Held(s.roots), others);
    OwedApart(s);
    DrainReleasesUnprotects(s.roots, s.engine);
    OwedApart(t);
  }

  lemma EnterBalances<V>(s: Jsc<V>)
    requires Balanced(s)
    ensures Balanced(DoEnter(s))
  {
    var g := s.(gate := s.gate.TryEnter().1);
    assert Owed(g) == Owed(s);
    DrainReleasesBalances(g);
    PushFrame(s.frames, Scope(true, []));
    assert Rooted(s.frames + [Scope(true, [])]) == Rooted(s.frames);
  }

  lemma EnterKeepsFrames<V>(s: Jsc<V>)
    requires Framed(s) && Budgeted(s)
    ensures Framed(DoEnter(s)) && Budgeted(DoEnter(s))
  {
    PushFrame(s.frames, Scope(true, []));
  }

  /** Without entries nothing is on the stack. */
  lemma {:induction false} EntriesPositive<V>(frames: seq<Frame<V>>)
    requires frames != [] ==> frames[0].Scope? && frames[0].entry
    ensures frames != [] ==> Entries(frames) > 0
  {
    if |frames| > 1 {
      EntriesPositive(frames[..|frames| - 1]);
    }
  }

  /** What is owed, one owner at a time. */
  lemma OwedApart<V>(s: Jsc<V>)
    ensures Owed(s) == Held(s.roots) + (multiset(s.functions) + Rooted(s.frames) + s.abandoned)
    ensures Owed(s) == multiset(s.functions) + (Held(s.roots) + Rooted(s.frames) + s.abandoned)
    ensures Owed(s) == Rooted(s.frames) + (Held(s.roots) + multiset(s.functions) + s.abandoned)
  {
  }

  /** Popping a frame and unprotecting what it rooted. */
  lemma PopBalances<V>(s: Jsc<V>)
    requires s.frames != [] && Balanced(s)
    ensures Balanced(Popped(s).(engine := s.engine.Unprotect(multiset(FrameValues(Top(s))))))
  {
    var others := Held(s.roots) + multiset(s.functions) + s.abandoned;
    var below, taken := Rooted(s.frames[..|s.frames| - 1]), multiset(FrameValues(Top(s)));
    Bags.TakeFrom(below, taken, Rooted(s.frames), others);
    OwedApart(s);
    OwedApart(Popped(s));
  }

  lemma RootBalances<V>(s: Jsc<V>, v: V, scope: nat)
    requires ScopeAt(s, scope) && Balanced(s)
    ensures Balanced(Root(s, v, scope))
  {
    GrowScope(s.frames, scope, v);
    var others := Held(s.roots) + multiset(s.functions) + s.abandoned;
    OwedApart(s);
    OwedApart(Root(s, v, scope));
    Bags.AddTo(Rooted(s.frames), multiset{v}, others);
  }

  lemma CloseScopeBalances<V>(s: Jsc<V>, unwinding: bool)
    requires Balanced(s)
    ensures Balanced(DoCloseScope(s, unwinding))
  {
    if s.frames != [] && Top(s).Scope? {
      PopBalances(s);
      var t := Popped(s).(engine := s.engine.Unprotect(multiset(Top(s).roots)), budget := s.budget.ReleaseMany(|Top(s).roots|));
      assert Owed(t) == Owed(Popped(s));
      DrainReleasesBalances(t);
    }
  }

  lemma CloseScopeKeepsFrames<V>(s: Jsc<V>, unwinding: bool)
    requires Framed(s)
    ensures Framed(DoCloseScope(s, unwinding))
  {
  }

  lemma CloseScopeKeepsBudget<V>(s: Jsc<V>, unwinding: bool)
    requires Budgeted(s)
    ensures Budgeted(DoCloseScope(s, unwinding))
  {
  }

  lemma PushBalances<V>(s: Jsc<V>, f: Frame<V>)
    requires Balanced(s) && FrameValues(f) == []
    ensures Balanced(Pushed(s, f))
  {
    PushFrame(s.frames, f);
    assert Rooted(s.frames + [f]) == Rooted(s.frames);
  }

  lemma InnerScopeKeeps<V>(s: Jsc<V>)
    requires Inv(s) && s.frames != []
    ensures Inv(Pushed(s, Scope(false, [])))
  {
    PushBalances(s, Scope(false, []));
    PushFrame(s.frames, Scope(false, []));
  }

  lemma OpenScopeKeeps<V>(s: Jsc<V>)
    requires Inv(s)
    ensures Inv(Next(s, OpenScope))
  {
    if s.frames != [] && s.gate.state.Active? {
      InnerScopeKeeps(s);
    }
  }

  lemma BeginBalances<V>(s: Jsc<V>, checked: bool, strings: nat)
    requires Balanced(s)
    ensures Balanced(DoBegin(s, checked, strings))
  {
    PushBalances(s, Operation(strings, []));
  }

  lemma BeginKeepsFrames<V>(s: Jsc<V>, checked: bool, strings: nat)
    requires Framed(s)
    ensures Framed(DoBegin(s, checked, strings))
  {
    PushFrame(s.frames, Operation(strings, []));
  }

  /** The two reservations of an operation succeed or leave the budget alone together. */
  lemma ReservesTogether(b: Budget, strings: nat)
    ensures var (first, c) := b.ReserveMany(1);
            var (rest, d) := c.ReserveMany(strings);
            && (first && rest ==> d == b.(used := b.used + 1 + strings) && d.used <= d.limit)
            && (first && !rest ==> c.ReleaseMany(1) == b)
  {
  }

  lemma BeginKeepsBudget<V>(s: Jsc<V>, checked: bool, strings: nat)
    requires Budgeted(s)
    ensures Budgeted(DoBegin(s, checked, strings))
  {
    ReservesTogether(s.budget, strings);
    PushFrame(s.frames, Operation(strings, []));
  }

  lemma PrepareBalances<V>(s: Jsc<V>, v: V)
    requires Balanced(s)
    ensures Balanced(DoPrepare(s, v))
  {
    if DoPrepare(s, v) != s {
      var args := Top(s).arguments;
      var others := Held(s.roots) + multiset(s.functions) + s.abandoned;
      PushFrame(Popped(s).frames, Top(s).(arguments := args + [v]));
      Bags.Append(Rooted(Popped(s).frames), args, v);
      OwedApart(s);
      OwedApart(DoPrepare(s, v));
      Bags.AddTo(Rooted(s.frames), multiset{v}, others);
    }
  }

  lemma PrepareKeepsFrames<V>(s: Jsc<V>, v: V)
    requires Framed(s) && Budgeted(s)
    ensures Framed(DoPrepare(s, v)) && Budgeted(DoPrepare(s, v))
  {
    if DoPrepare(s, v) != s {
      PushFrame(Popped(s).frames, Top(s).(arguments := Top(s).arguments + [v]));
    }
  }

  lemma FinishBalances<V>(s: Jsc<V>, o: Outcome<V>, scope: nat)
    requires Balanced(s)
    ensures Balanced(DoFinish(s, o, scope))
  {
    if s.frames != [] && Top(s).Operation? && (o.Managed? ==> ScopeAt(s, scope)) {
      var t := if o.Managed? then Root(s, o.value, scope) else s;
      if o.Managed? {
        RootBalances(s, o.value, scope);
      }
      assert Top(t) == Top(s);
      PopBalances(t);
      assert Owed(DoFinish(s, o, scope)) == Owed(Popped(t));
    }
  }

  lemma RootKeepsFrames<V>(s: Jsc<V>, v: V, scope: nat)
    requires ScopeAt(s, scope) && Framed(s)
    ensures Framed(Root(s, v, scope)) && Admitted(Root(s, v, scope).frames) == Admitted(s.frames) + 1
  {
    GrowScope(s.frames, scope, v);
    GrowScopeRegistered(s.frames, scope, v, s.functions);
  }

  lemma FinishKeepsFrames<V>(s: Jsc<V>, o: Outcome<V>, scope: nat)
    requires Framed(s) && Budgeted(s)
    ensures Framed(DoFinish(s, o, scope)) && Budgeted(DoFinish(s, o, scope))
  {
    if o.Managed? && ScopeAt(s, scope) {
      RootKeepsFrames(s, o.value, scope);
    }
  }

  lemma PersistBalances<V>(s: Jsc<V>, checked: bool, v: V)
    requires Balanced(s)
    ensures Balanced(DoPersist(s, checked, v))
  {
    var t := DoPersist(s, checked, v);
    if t != s {
      Conserves(s.roots, R.DoInsert(v));
      var others := multiset(s.functions) + Rooted(s.frames) + s.abandoned;
      OwedApart(s);
      OwedApart(t);
      assert Held(t.roots) == Held(s.roots) + multiset{v};
      Bags.AddTo(Held(s.roots), multiset{v}, others);
    }
  }

  lemma ResolveKeeps<V>(s: Jsc<V>, id: RootId, managed: bool, scope: nat)
    requires Inv(s)
    ensures Inv(DoResolve(s, id, managed, scope))
  {
    if ScopeAt(s, scope) && managed && Lookup(s.roots, id).Some? {
      var v := Lookup(s.roots, id).value;
      var t := s.(budget := s.budget.ReserveMany(1).1);
      assert Owed(t) == Owed(s);
      RootBalances(t, v, scope);
      RootKeepsFrames(t, v, scope);
    }
  }

  lemma ReleaseBalances<V>(s: Jsc<V>, id: RootId)
    requires Balanced(s)
    ensures Balanced(DoRelease(s, id))
  {
    var t := DoRelease(s, id);
    if t != s {
      Conserves(s.roots, R.DoRemove(id));
      var given := multiset(Reply(s.roots, R.DoRemove(id)).given);
      var others := multiset(s.functions) + Rooted(s.frames) + s.abandoned;
      OwedApart(s);
      OwedApart(t);
      Bags.TakeFrom(Held(t.roots), given, Held(s.roots), others);
    }
  }

  lemma DropLeaseBalances<V>(s: Jsc<V>, id: RootId)
    requires Balanced(s)
    ensures Balanced(DoDropLease(s, id))
  {
    QueueingHolds(s.roots, id);
  }

  lemma InstallBalances<V>(s: Jsc<V>, f: V)
    requires Balanced(s)
    ensures Balanced(DoInstall(s, f))
  {
    var t := DoInstall(s, f);
    if t != s {
      var others := Held(s.roots) + Rooted(s.frames) + s.abandoned;
      PushFrame(s.frames, Publishing(f));
      assert Rooted(t.frames) == Rooted(s.frames);
      Bags.AddMember(s.functions, f);
      OwedApart(s);
      OwedApart(t);
      Bags.AddTo(multiset(s.functions), multiset{f}, others);
    }
  }

  lemma InstallKeepsFrames<V>(s: Jsc<V>, f: V)
    requires Framed(s) && Budgeted(s)
    ensures Framed(DoInstall(s, f)) && Budgeted(DoInstall(s, f))
  {
    PushFrame(s.frames, Publishing(f));
    if f !in s.functions {
      assert s.functions + {f} - {f} == s.functions;
    }
  }

  /** Only the function still to be published is rolled back, and it is still registered. */
  lemma PublishBalances<V>(s: Jsc<V>, published: bool)
    requires Balanced(s) && Registered(s.frames, s.functions)
    ensures Balanced(DoPublish(s, published))
  {
    if s.frames != [] && Top(s).Publishing? {
      var t := DoPublish(s, published);
      var f := Top(s).callee;
      var others := Held(s.roots) + Rooted(t.frames) + s.abandoned;
      assert Rooted(t.frames) == Rooted(s.frames);
      Bags.RemoveMember(s.functions, f);
      OwedApart(s);
      OwedApart(t);
      Bags.TakeFrom(multiset(s.functions - {f}), multiset{f}, multiset(s.functions), others);
    }
  }

  lemma PublishKeepsFrames<V>(s: Jsc<V>, published: bool)
    requires Framed(s) && Budgeted(s)
    ensures Framed(DoPublish(s, published)) && Budgeted(DoPublish(s, published))
  {
    if s.frames != [] && Top(s).Publishing? {
      MoreFunctions(Popped(s).frames, s.functions - {Top(s).callee}, s.functions);
    }
  }

  lemma ReleaseEngineBalances<V>(s: Jsc<V>)
    requires Balanced(s)
    ensures Balanced(ReleaseEngineResources(s))
  {
    var t := ReleaseEngineResources(s);
    Drains(s.roots);
    var owned := Held(s.roots) + multiset(s.functions);
    assert Owed(s) == owned + (Rooted(s.frames) + s.abandoned);
    assert Owed(t) == multiset{} + (Rooted(s.frames) + s.abandoned);
    Bags.TakeFrom(multiset{}, owned, owned, Rooted(s.frames) + s.abandoned);
  }

  lemma AbandonEngineBalances<V>(s: Jsc<V>)
    requires Balanced(s)
    ensures Balanced(AbandonEngineResources(s))
  {
    Drains(s.roots);
  }

  lemma EmptyFrames<V>(s: Jsc<V>)
    requires Framed(s) && s.gate.entries == 0
    ensures s.frames == []
  {
    EntriesPositive(s.frames);
  }

  lemma CleanedIsSettled(g: Gate)
    requires Settled(g) && !g.state.Destroyed?
    ensures var (r, h) := g.RequestDrain().TryBeginCleanup();
            if r.Err? then Settled(h) && h.entries == g.entries
            else
              var (f, i) := h.EndCleanup(true).TryFinish();
              && g.entries == 0 && f.Ok?
              && i.MarkDestroyed().0.Ok? && Settled(i.MarkDestroyed().1) && i.MarkDestroyed().1.entries == 0
  {
  }

  lemma WithEntryKeeps<V>(s: Jsc<V>)
    requires Framed(s)
    ensures Framed(DoDetachWithEntry(s).1)
  {
    WithEntryShape(s);
    if !s.gate.state.Destroyed? {
      CleanedIsSettled(s.gate);
    }
    if s.gate.entries == 0 {
      EmptyFrames(s);
    }
  }

  lemma FinishedIsSettled(g: Gate)
    requires Settled(g) && !g.state.Destroyed?
    ensures var (r, h) := g.RequestDrain().TryFinish();
            && h.entries == g.entries
            && (if r.Ok? then g.entries == 0 && Settled(h.MarkDestroyed().1) && h.MarkDestroyed().1.entries == 0 else Settled(h))
  {
  }

  lemma WithoutEntryKeeps<V>(s: Jsc<V>)
    requires Framed(s)
    ensures Framed(DoDetachWithoutEntry(s).1)
  {
    WithoutEntryShape(s);
    if !s.gate.state.Destroyed? {
      FinishedIsSettled(s.gate);
    }
    if s.gate.entries == 0 {
      EmptyFrames(s);
    }
  }

  lemma DropAttachmentKeeps<V>(s: Jsc<V>)
    requires Framed(s)
    ensures Framed(DoDropAttachment(s))
  {
  }

  lemma GateAside<V>(s: Jsc<V>, g: Gate)
    requires Balanced(s)
    ensures Balanced(s.(gate := g))
  {
    assert Owed(s.(gate := g)) == Owed(s);
  }

  /** A detach with entry that gets past the gate's checks releases everything; one that does not
      changes the gate alone. */
  lemma WithEntryShape<V>(s: Jsc<V>)
    ensures var t := DoDetachWithEntry(s).1;
            t == s.(gate := t.gate) || t == ReleaseEngineResources(s).(gate := t.gate)
  {
    var released := ReleaseEngineResources(s);
    var begun := s.gate.RequestDrain().TryBeginCleanup();
    if !s.gate.state.Destroyed? && begun.0.Ok? {
      var finished := begun.1.EndCleanup(true).TryFinish();
      assert DoDetachWithEntry(s).1 == released.(gate := if finished.0.Ok? then finished.1.MarkDestroyed().1 else finished.1);
    }
  }

  lemma WithoutEntryShape<V>(s: Jsc<V>)
    ensures var t := DoDetachWithoutEntry(s).1;
            t == s.(gate := t.gate) || t == AbandonEngineResources(s).(gate := t.gate)
  {
    var abandoned := AbandonEngineResources(s);
    var finished := s.gate.RequestDrain().TryFinish();
    if !s.gate.state.Destroyed? && finished.0.Ok? {
      assert DoDetachWithoutEntry(s).1 == abandoned.(gate := finished.1.MarkDestroyed().1);
    }
  }

  lemma WithEntryBalances<V>(s: Jsc<V>)
    requires Balanced(s)
    ensures Balanced(DoDetachWithEntry(s).1)
  {
    WithEntryShape(s);
    ReleaseEngineBalances(s);
    GateAside(s, DoDetachWithEntry(s).1.gate);
    GateAside(ReleaseEngineResources(s), DoDetachWithEntry(s).1.gate);
  }

  lemma WithoutEntryBalances<V>(s: Jsc<V>)
    requires Balanced(s)
    ensures Balanced(DoDetachWithoutEntry(s).1)
  {
    WithoutEntryShape(s);
    AbandonEngineBalances(s);
    GateAside(s, DoDetachWithoutEntry(s).1.gate);
    GateAside(AbandonEngineResources(s), DoDetachWithoutEntry(s).1.gate);
  }

  lemma DropAttachmentBalances<V>(s: Jsc<V>)
    requires Balanced(s)
    ensures Balanced(DoDropAttachment(s))
  {
    AbandonEngineBalances(s);
    GateAside(AbandonEngineResources(s), DoDropAttachment(s).gate);
  }

  lemma StackStepBalances<V>(s: Jsc<V>, step: Step<V>)
    requires Inv(s) && (step.OpenScope? || step.Begin? || step.Prepare? || step.Finish? || step.Resolve?)
    ensures Balanced(Next(s, step))
  {
    match step
    case OpenScope => OpenScopeKeeps(s);
    case Begin(c, n) => BeginBalances(s, c, n);
    case Prepare(v) => PrepareBalances(s, v);
    case Finish(o, k) => FinishBalances(s, o, k);
    case Resolve(id, m, k) => ResolveKeeps(s, id, m, k);
  }

  lemma RegistryStepBalances<V>(s: Jsc<V>, step: Step<V>)
    requires Inv(s) && (step.Persist? || step.Release?)
    ensures Balanced(Next(s, step))
  {
    match step
    case Persist(c, v) => PersistBalances(s, c, v);
    case Release(id) => ReleaseBalances(s, id);
  }

  lemma StepBalances<V>(s: Jsc<V>, step: Step<V>)
    requires Inv(s)
    ensures Balanced(Next(s, step))
  {
    match step
    case Enter => EnterBalances(s);
    case CloseScope(u) => CloseScopeBalances(s, u);
    case DrainRequest => GateAside(s, Next(s, step).gate);
    case DetachWithEntry => WithEntryBalances(s);
    case DetachWithoutEntry => WithoutEntryBalances(s);
    case DropAttachment => DropAttachmentBalances(s);
    case Persist(_, _) => RegistryStepBalances(s, step);
    case Release(_) => RegistryStepBalances(s, step);
    case DropLease(id) => DropLeaseBalances(s, id);
    case Install(f) => InstallBalances(s, f);
    case Publish(p) => PublishBalances(s, p);
    case _ => StackStepBalances(s, step);
  }

  lemma DetachKeepsBudget<V>(s: Jsc<V>)
    requires Budgeted(s)
    ensures Budgeted(DoDetachWithEntry(s).1) && Budgeted(DoDetachWithoutEntry(s).1)
  {
    WithEntryShape(s);
    WithoutEntryShape(s);
  }

  lemma RegistryKeepsFrames<V>(s: Jsc<V>, step: Step<V>)
    requires Budgeted(s) && Framed(s)
    requires step.Persist? || step.Release? || step.DropLease? || step.DrainRequest?
    ensures Budgeted(Next(s, step)) && Framed(Next(s, step))
  {
    assert Next(s, step).frames == s.frames;
  }

  lemma StepKeepsFrames<V>(s: Jsc<V>, step: Step<V>)
    requires Inv(s)
    ensures Budgeted(Next(s, step)) && Framed(Next(s, step))
  {
    match step
    case Enter => EnterKeepsFrames(s);
    case OpenScope => OpenScopeKeeps(s);
    case CloseScope(u) => CloseScopeKeepsFrames(s, u); CloseScopeKeepsBudget(s, u);
    case Begin(c, n) => BeginKeepsFrames(s, c, n); BeginKeepsBudget(s, c, n);
    case Prepare(v) => PrepareKeepsFrames(s, v);
    case Finish(o, k) => FinishKeepsFrames(s, o, k);
    case Resolve(id, m, k) => ResolveKeeps(s, id, m, k);
    case Install(f) => InstallKeepsFrames(s, f);
    case Publish(p) => PublishKeepsFrames(s, p);
    case DetachWithEntry => DetachKeepsBudget(s); WithEntryKeeps(s);
    case DetachWithoutEntry => DetachKeepsBudget(s); WithoutEntryKeeps(s);
    case DropAttachment => DropAttachmentKeeps(s);
    case _ => RegistryKeepsFrames(s, step);
  }

  ghost function Run<V>(s: Jsc<V>, steps: seq<Step<V>>): Jsc<V>
    decreases |steps|
  {
    if steps == [] then s else Next(Run(s, steps[..|steps| - 1]), steps[|steps| - 1])
  }

  ghost function RunFromNew<V>(limits: Limits, policy: FinalEntryPolicy, steps: seq<Step<V>>): Jsc<V> {
    Run(NewJsc(limits, policy), steps)
  }

  lemma {:induction false} RunKeepsInv<V>(s: Jsc<V>, steps: seq<Step<V>>)
    requires Inv(s)
    ensures Inv(Run(s, steps))
    decreases |steps|
  {
    if steps != [] {
      RunKeepsInv(s, steps[..|steps| - 1]);
      StepBalances(Run(s, steps[..|steps| - 1]), steps[|steps| - 1]);
      StepKeepsFrames(Run(s, steps[..|steps| - 1]), steps[|steps| - 1]);
    }
  }

  lemma NewIsBalanced<V>(limits: Limits, policy: FinalEntryPolicy)
    ensures Inv(NewJsc<V>(limits, policy))
  {
    Counters(NewRoots<V>(limits.roots));
  }
}
