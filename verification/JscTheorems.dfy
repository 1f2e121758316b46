/** What the balance means for callers, over every history of entries, scopes, operations, leases,
  host functions and teardown.
*/
module JscTheorems {
  import opened Wrappers
  import opened RootTable
  import opened Entry
  import opened JscRuntime
  import opened JscBalance
  import R = RootRegistry
  import Bags

  lemma Reachable<V>(limits: Limits, policy: FinalEntryPolicy, steps: seq<Step<V>>)
    ensures Inv(RunFromNew(limits, policy, steps))
    ensures RunFromNew(limits, policy, steps).gate.policy == policy
  {
    NewIsBalanced<V>(limits, policy);
    RunKeepsInv(NewJsc(limits, policy), steps);
    PolicyIsFixed(NewJsc(limits, policy), steps);
  }

  lemma WithEntryKeepsPolicy<V>(s: Jsc<V>)
    ensures DoDetachWithEntry(s).1.gate.policy == s.gate.policy
  {
  }

  lemma WithoutEntryKeepsPolicy<V>(s: Jsc<V>)
    ensures DoDetachWithoutEntry(s).1.gate.policy == s.gate.policy
  {
  }

  lemma StepKeepsPolicy<V>(s: Jsc<V>, step: Step<V>)
    ensures Next(s, step).gate.policy == s.gate.policy
  {
    match step
    case DetachWithEntry => WithEntryKeepsPolicy(s);
    case DetachWithoutEntry => WithoutEntryKeepsPolicy(s);
    case Enter => EntryKeepsPolicy(s);
    case CloseScope(unwinding) => CloseScopeKeepsPolicy(s, unwinding);
    case DropAttachment => DropKeepsPolicy(s);
    case DrainRequest =>
    case _ => StepKeepsGate(s, step);
  }

  lemma EntryKeepsPolicy<V>(s: Jsc<V>)
    ensures DoEnter(s).gate.policy == s.gate.policy
  {
  }

  lemma DropKeepsPolicy<V>(s: Jsc<V>)
    ensures DoDropAttachment(s).gate.policy == s.gate.policy
  {
  }

  lemma CloseScopeKeepsPolicy<V>(s: Jsc<V>, unwinding: bool)
    ensures DoCloseScope(s, unwinding).gate.policy == s.gate.policy
  {
  }

  lemma StepKeepsGate<V>(s: Jsc<V>, step: Step<V>)
    requires step.OpenScope? || step.Begin? || step.Prepare? || step.Finish? || step.Persist? || step.Resolve?
          || step.Release? || step.DropLease? || step.Install? || step.Publish?
    ensures Next(s, step).gate == s.gate && Next(s, step).abandoned == s.abandoned
  {
  }

  lemma {:induction false} PolicyIsFixed<V>(s: Jsc<V>, steps: seq<Step<V>>)
    ensures Run(s, steps).gate.policy == s.gate.policy
    decreases |steps|
  {
    if steps != [] {
      PolicyIsFixed(s, steps[..|steps| - 1]);
      StepKeepsPolicy(Run(s, steps[..|steps| - 1]), steps[|steps| - 1]);
    }
  }

  /** The engine's protections are the values in the registry, queued ones included, the registered
      functions, the local and argument roots of open frames, and what was abandoned: no protection
      is lost, and none is released twice. */
  lemma ProtectionsBalance<V>(limits: Limits, policy: FinalEntryPolicy, steps: seq<Step<V>>)
    ensures var s := RunFromNew(limits, policy, steps);
            && s.engine.protections == Held(s.roots) + multiset(s.functions) + Rooted(s.frames) + s.abandoned
            && !s.engine.faulted
  {
    Reachable(limits, policy, steps);
  }

  /** The budget in use is the reservations outstanding and the local roots held, so giving one back
      never fails, and an operation is refused exactly when its group does not fit. */
  lemma BudgetIsExact<V>(limits: Limits, policy: FinalEntryPolicy, steps: seq<Step<V>>, strings: nat)
    ensures var s := RunFromNew(limits, policy, steps);
            && s.budget.used == Admitted(s.frames) <= s.budget.limit
            && !s.budget.unbalanced
            && (s.frames != [] ==>
                  (DoBegin(s, false, strings) == s <==> Admitted(s.frames) + 1 + strings > s.budget.limit))
  {
    Reachable(limits, policy, steps);
    var s := RunFromNew(limits, policy, steps);
    PushFrame(s.frames, Operation(strings, []));
  }

  /** The gate admits a cleanup exactly when it can, and once it has, teardown runs to the end. */
  lemma GateTeardown(g: Gate)
    requires Settled(g) && !g.state.Destroyed?
    ensures var (begun, h) := g.RequestDrain().TryBeginCleanup();
            && (begun.Ok? <==> g.entries == 0 && !g.policy.NeverAvailable?)
            && (begun.Err? ==> h == g.RequestDrain())
            && (begun.Ok? ==>
                  var (finished, i) := h.EndCleanup(true).TryFinish();
                  finished == Ok(Completed) && i.MarkDestroyed().0.Ok? && i.MarkDestroyed().1.state.Destroyed?)
  {
  }

  lemma WithEntryAnswer<V>(s: Jsc<V>)
    requires Settled(s.gate) && !s.gate.state.Destroyed?
    ensures var (r, t) := DoDetachWithEntry(s);
            if s.gate.entries == 0 && !s.gate.policy.NeverAvailable?
            then r == Ok(Report(Completed, |Reply(s.roots, R.DoDrain).given|, |s.functions|, 0, 0))
            else r.Err? && t == s.(gate := s.gate.RequestDrain())
    ensures var (r, t) := DoDetachWithEntry(s);
            r.Ok? ==> t == ReleaseEngineResources(s).(gate := t.gate) && t.gate.state.Destroyed?
  {
    GateTeardown(s.gate);
  }

  lemma WithoutEntryAnswer<V>(s: Jsc<V>)
    requires Settled(s.gate) && !s.gate.state.Destroyed?
    ensures var (r, t) := DoDetachWithoutEntry(s);
            if s.gate.entries == 0 && !s.gate.policy.Guaranteed?
            then r == Ok(Report(Unavailable, 0, 0, |Reply(s.roots, R.DoDrain).given|, |s.functions|))
            else r.Err? && t == s.(gate := s.gate.RequestDrain())
    ensures var (r, t) := DoDetachWithoutEntry(s);
            r.Ok? ==> t == AbandonEngineResources(s).(gate := t.gate) && t.gate.state.Destroyed?
  {
  }

  lemma EntriesMeanFrames<V>(s: Jsc<V>)
    requires Framed(s)
    ensures s.gate.entries == 0 <==> s.frames == []
  {
    EntriesPositive(s.frames);
  }

  lemma NothingLeft<V>(s: Jsc<V>)
    requires Balanced(s) && s.frames == []
    ensures var t := ReleaseEngineResources(s);
            && t.engine.protections == s.abandoned && t.functions == {}
            && Held(t.roots) == multiset{} && Table(t.roots) == map[]
    ensures |Reply(s.roots, R.DoDrain).given| == |Held(s.roots)|
  {
    ReleaseEngineBalances(s);
    Drains(s.roots);
    Counters(s.roots);
  }

  lemma AllLeft<V>(s: Jsc<V>)
    requires Balanced(s) && s.frames == []
    ensures var t := AbandonEngineResources(s);
            && t.engine == s.engine && Held(t.roots) == multiset{} && t.functions == {}
            && t.abandoned == s.abandoned + Held(s.roots) + multiset(s.functions) == s.engine.protections
    ensures |Reply(s.roots, R.DoDrain).given| == |Held(s.roots)|
    ensures |s.engine.protections| == |s.abandoned| + |Held(s.roots)| + |s.functions|
  {
    Drains(s.roots);
    Counters(s.roots);
    assert s.engine.protections == s.abandoned + Held(s.roots) + multiset(s.functions);
  }

  /** A teardown with engine entry succeeds exactly when no entry is open and the host can provide
      it. It then leaves the engine nothing to hold but what had been abandoned before and no handle
      that resolves, and reports what it released; otherwise it releases nothing. */
  lemma EntryReleasesEverything<V>(limits: Limits, policy: FinalEntryPolicy, steps: seq<Step<V>>)
    requires !RunFromNew(limits, policy, steps).gate.state.Destroyed?
    ensures var s := RunFromNew(limits, policy, steps);
            var (r, t) := DoDetachWithEntry(s);
            && (r.Ok? <==> s.frames == [] && !policy.NeverAvailable?)
            && (r.Ok? ==>
                  && t.engine.protections == s.abandoned && t.functions == {}
                  && Held(t.roots) == multiset{} && Table(t.roots) == map[]
                  && t.gate.state.Destroyed?
                  && r.value == Report(Completed, |Held(s.roots)|, |s.functions|, 0, 0))
            && (r.Err? ==> t == s.(gate := s.gate.RequestDrain()))
  {
    Reachable(limits, policy, steps);
    var s := RunFromNew(limits, policy, steps);
    EntriesMeanFrames(s);
    WithEntryAnswer(s);
    if s.frames == [] {
      NothingLeft(s);
    }
  }

  /** A detach without entry succeeds exactly when no entry is open and none is owed. It touches no
      protection, and the counts it reports as unresolved are the roots, queued ones included, and
      the functions whose protections are left behind. */
  lemma UnresolvedCountsAreExact<V>(limits: Limits, policy: FinalEntryPolicy, steps: seq<Step<V>>)
    requires !RunFromNew(limits, policy, steps).gate.state.Destroyed?
    ensures var s := RunFromNew(limits, policy, steps);
            var (r, t) := DoDetachWithoutEntry(s);
            && (r.Ok? <==> s.frames == [] && !policy.Guaranteed?)
            && t.engine == s.engine
            && (r.Ok? ==>
                  && r.value == Report(Unavailable, 0, 0, |Held(s.roots)|, |s.functions|)
                  && t.gate.state.Destroyed? && Held(t.roots) == multiset{} && t.functions == {}
                  && t.abandoned == s.abandoned + Held(s.roots) + multiset(s.functions)
                  && |t.engine.protections| == |s.abandoned| + r.value.unresolvedRoots + r.value.unresolvedFunctions)
            && (r.Err? ==> t == s.(gate := s.gate.RequestDrain()))
  {
    Reachable(limits, policy, steps);
    var s := RunFromNew(limits, policy, steps);
    EntriesMeanFrames(s);
    WithoutEntryAnswer(s);
    if s.frames == [] {
      AllLeft(s);
    }
  }

  /** Dropping an attachment that was promised a final entry leaves it draining for good, with every
      protection it owned still in the engine. */
  lemma DropWithoutPromisedEntry<V>(limits: Limits, steps: seq<Step<V>>)
    requires var s := RunFromNew(limits, Guaranteed, steps); s.frames == [] && !s.gate.state.Destroyed?
    ensures var s := RunFromNew(limits, Guaranteed, steps);
            var t := DoDropAttachment(s);
            && t.gate.state.Draining? && t.engine == s.engine
            && t.abandoned == s.engine.protections
            && Held(t.roots) == multiset{} && t.functions == {}
  {
    Reachable(limits, Guaranteed, steps);
    var s := RunFromNew(limits, Guaranteed, steps);
    EntriesMeanFrames(s);
    AllLeft(s);
  }

  predicate Drops<V>(steps: seq<Step<V>>) {
    exists i :: 0 <= i < |steps| && steps[i].DropAttachment?
  }

  /** Nothing is abandoned while the attachment stands. */
  lemma {:induction false} StandingOwnsAll<V>(limits: Limits, policy: FinalEntryPolicy, steps: seq<Step<V>>)
    requires !Drops(steps)
    ensures var s := RunFromNew(limits, policy, steps); !s.gate.state.Destroyed? ==> s.abandoned == multiset{}
    decreases |steps|
  {
    if steps != [] {
      var before, step := steps[..|steps| - 1], steps[|steps| - 1];
      var s := RunFromNew(limits, policy, before);
      StandingOwnsAll(limits, policy, before);
      Reachable(limits, policy, before);
      assert !steps[|steps| - 1].DropAttachment?;
      match step {
        case DetachWithEntry => WithEntryShape(s);
        case DetachWithoutEntry => if !s.gate.state.Destroyed? { WithoutEntryAnswer(s); }
        case Enter =>
        case CloseScope(_) =>
        case DrainRequest =>
        case _ => StepKeepsGate(s, step);
      }
    }
  }

  /** So a teardown with entry, the only kind an owned runtime has, leaves the engine no protection. */
  lemma TeardownLeavesNone<V>(limits: Limits, policy: FinalEntryPolicy, steps: seq<Step<V>>)
    requires !Drops(steps) && !RunFromNew(limits, policy, steps).gate.state.Destroyed?
    ensures var (r, t) := DoDetachWithEntry(RunFromNew(limits, policy, steps));
            r.Ok? ==> t.engine.protections == multiset{}
  {
    StandingOwnsAll(limits, policy, steps);
    EntryReleasesEverything(limits, policy, steps);
  }

  /** Dropping a lease of an active attachment ends the handle at once, alone, and asks the engine for nothing;
      the protection waits. Dropped later, or when its root was released before, it changes nothing. */
  lemma DroppedLeaseWaits<V>(s: Jsc<V>, id: RootId)
    ensures var t := DoDropLease(s, id);
            && t == s.(roots := t.roots) && Held(t.roots) == Held(s.roots)
            && (if s.gate.state.Active? && id in Table(s.roots)
                then Table(t.roots) == Table(s.roots) - {id} && Releasing(t.roots) == [Table(s.roots)[id]] + Releasing(s.roots)
                else Table(t.roots) == Table(s.roots) && Releasing(t.roots) == Releasing(s.roots))
  {
    QueueingHolds(s.roots, id);
    assert id !in Table(s.roots) ==> Table(s.roots) - {id} == Table(s.roots);
  }

  /** Entering, and leaving without a panic, unprotects exactly the roots whose leases were dropped, and
      ends no other handle. */
  lemma EntriesReleaseDroppedLeases<V>(limits: Limits, policy: FinalEntryPolicy, steps: seq<Step<V>>)
    ensures var s, t := RunFromNew(limits, policy, steps), DoEnter(RunFromNew(limits, policy, steps));
            t != s ==>
              && Releasing(t.roots) == [] && Table(t.roots) == Table(s.roots)
              && t.engine == s.engine.Unprotect(multiset(Releasing(s.roots)))
    ensures var s, t := RunFromNew(limits, policy, steps), DoCloseScope(RunFromNew(limits, policy, steps), false);
            s.frames != [] && Top(s).Scope? && Top(s).entry ==>
              && Releasing(t.roots) == [] && Table(t.roots) == Table(s.roots)
              && t.engine == s.engine.Unprotect(multiset(Top(s).roots) + multiset(Releasing(s.roots)))
  {
    Reachable(limits, policy, steps);
    var s := RunFromNew(limits, policy, steps);
    EnterReleases(s);
    if s.frames != [] && Top(s).Scope? && Top(s).entry {
      LeaveReleases(s);
    }
  }

  lemma ReleasingIsOwed<V>(s: Jsc<V>)
    requires Balanced(s)
    ensures multiset(Releasing(s.roots)) + Rooted(s.frames) <= s.engine.protections
  {
    DrainReleasesGivesUp(s.roots, s.engine);
    OwedApart(s);
  }

  lemma EnterReleases<V>(s: Jsc<V>)
    requires Balanced(s)
    ensures var t := DoEnter(s);
            t != s ==>
              && Releasing(t.roots) == [] && Table(t.roots) == Table(s.roots)
              && t.engine == s.engine.Unprotect(multiset(Releasing(s.roots)))
  {
    ReleasingIsOwed(s);
    DrainReleasesEmpties(s.roots, s.engine);
    DrainReleasesUnprotects(s.roots, s.engine);
  }

  lemma LeaveReleases<V>(s: Jsc<V>)
    requires Balanced(s) && Entered(s) && s.frames != [] && Top(s).Scope? && Top(s).entry
    ensures var t := DoCloseScope(s, false);
            && Releasing(t.roots) == [] && Table(t.roots) == Table(s.roots)
            && t.engine == s.engine.Unprotect(multiset(Top(s).roots) + multiset(Releasing(s.roots)))
  {
    var locals, queued := multiset(Top(s).roots), multiset(Releasing(s.roots));
    ReleasingIsOwed(s);
    assert locals <= Rooted(s.frames);
    Bags.Sooner(locals, Rooted(s.frames), queued, s.engine.protections);
    UnprotectTwice(s.engine, locals, queued, locals + queued);
    DrainReleasesEmpties(s.roots, s.engine.Unprotect(locals));
    DrainReleasesUnprotects(s.roots, s.engine.Unprotect(locals));
  }
}
