/** What every run of an attachment stays within: its limits, and the life of its gate. */
module JscLimits {
  import opened RootTable
  import R = RootRegistry
  import opened Entry
  import opened JscRuntime
  import opened JscBalance
  import opened JscHandles
  import opened JscNesting
  import JscTheorems

  ghost predicate Within<V>(s: Jsc<V>, limits: Limits) {
    && s.gate.limit == limits.entries && s.budget.limit == limits.locals
    && s.functionLimit == limits.functions && Limit(s.roots) == limits.roots
  }

  lemma {:induction false} DrainReleasesKeepsLimit<V>(l: Roots<V>, e: Engine<V>)
    ensures Limit(DrainReleases(l, e).0) == Limit(l)
    decreases Pending(l)
  {
    Takes(l);
    var m, given := Apply(l, R.DoTake), Reply(l, R.DoTake).given;
    if given != [] {
      KeepsLimit(l, R.DoTake);
      DrainReleasesKeepsLimit(m, e.Unprotect(multiset(given)));
    }
  }

  lemma EnterKeepsLimits<V>(s: Jsc<V>, limits: Limits)
    requires Within(s, limits)
    ensures Within(DoEnter(s), limits)
  {
    DrainReleasesKeepsLimit(s.roots, s.engine);
  }

  lemma CloseScopeKeepsLimits<V>(s: Jsc<V>, unwinding: bool, limits: Limits)
    requires Within(s, limits)
    ensures Within(DoCloseScope(s, unwinding), limits)
  {
    if s.frames != [] && Top(s).Scope? {
      DrainReleasesKeepsLimit(s.roots, s.engine.Unprotect(multiset(Top(s).roots)));
    }
  }

  lemma RegistryKeepsLimits<V>(s: Jsc<V>, step: Step<V>, limits: Limits)
    requires Within(s, limits) && (step.Persist? || step.Release? || step.DropLease?)
    ensures Within(Next(s, step), limits)
  {
  }

  /** Teardown moves the gate's state and outcome, not its counter or its limit. */
  ghost predicate SameDepth<V>(s: Jsc<V>, t: Jsc<V>) {
    t.gate.limit == s.gate.limit && t.gate.entries == s.gate.entries
  }

  lemma WithEntryKeepsDepth<V>(s: Jsc<V>)
    ensures SameDepth(s, DoDetachWithEntry(s).1)
  {
  }

  lemma WithoutEntryKeepsDepth<V>(s: Jsc<V>)
    ensures SameDepth(s, DoDetachWithoutEntry(s).1)
  {
  }

  lemma DropKeepsDepth<V>(s: Jsc<V>)
    ensures SameDepth(s, DoDropAttachment(s))
  {
    var (finished, g) := s.gate.RequestDrain().TryFinish();
    assert (g.limit, g.entries) == (s.gate.limit, s.gate.entries);
  }

  lemma ReleaseKeepsLimits<V>(s: Jsc<V>, limits: Limits, g: Gate)
    requires Within(s, limits) && g.limit == s.gate.limit
    ensures Within(s.(gate := g), limits)
    ensures Within(ReleaseEngineResources(s).(gate := g), limits)
    ensures Within(AbandonEngineResources(s).(gate := g), limits)
  {
    KeepsLimit(s.roots, R.DoDrain);
  }

  lemma WithEntryKeepsLimits<V>(s: Jsc<V>, limits: Limits)
    requires Within(s, limits)
    ensures Within(DoDetachWithEntry(s).1, limits)
  {
    WithEntryShape(s);
    WithEntryKeepsDepth(s);
    ReleaseKeepsLimits(s, limits, DoDetachWithEntry(s).1.gate);
  }

  lemma WithoutEntryKeepsLimits<V>(s: Jsc<V>, limits: Limits)
    requires Within(s, limits)
    ensures Within(DoDetachWithoutEntry(s).1, limits)
  {
    WithoutEntryShape(s);
    WithoutEntryKeepsDepth(s);
    ReleaseKeepsLimits(s, limits, DoDetachWithoutEntry(s).1.gate);
  }

  lemma DropKeepsLimits<V>(s: Jsc<V>, limits: Limits)
    requires Within(s, limits)
    ensures Within(DoDropAttachment(s), limits)
  {
    DropKeepsDepth(s);
    ReleaseKeepsLimits(s, limits, DoDropAttachment(s).gate);
  }

  lemma StepKeepsLimits<V>(s: Jsc<V>, step: Step<V>, limits: Limits)
    requires Within(s, limits)
    ensures Within(Next(s, step), limits)
  {
    StepFollows(s, step);
    match step
    case Enter => EnterKeepsLimits(s, limits);
    case CloseScope(unwinding) => CloseScopeKeepsLimits(s, unwinding, limits);
    case Persist(_, _) => RegistryKeepsLimits(s, step, limits);
    case Release(_) => RegistryKeepsLimits(s, step, limits);
    case DropLease(_) => RegistryKeepsLimits(s, step, limits);
    case DetachWithEntry => WithEntryKeepsLimits(s, limits);
    case DetachWithoutEntry => WithoutEntryKeepsLimits(s, limits);
    case DropAttachment => DropKeepsLimits(s, limits);
    case _ => FramesAlone(s, step);
  }

  lemma {:induction false} RunKeepsLimits<V>(limits: Limits, policy: FinalEntryPolicy, steps: seq<Step<V>>)
    ensures var s := RunFromNew(limits, policy, steps); Inv(s) && Within(s, limits)
    decreases |steps|
  {
    JscTheorems.Reachable(limits, policy, steps);
    if steps != [] {
      var before := steps[..|steps| - 1];
      RunKeepsLimits(limits, policy, before);
      StepKeepsLimits(RunFromNew(limits, policy, before), steps[|steps| - 1], limits);
    }
  }

  lemma StepKeepsEntries<V>(s: Jsc<V>, step: Step<V>)
    requires s.gate.entries <= s.gate.limit
    ensures Next(s, step).gate.entries <= s.gate.limit
  {
    match step
    case Enter =>
    case CloseScope(unwinding) =>
    case DetachWithEntry => WithEntryKeepsDepth(s);
    case DetachWithoutEntry => WithoutEntryKeepsDepth(s);
    case DropAttachment => DropKeepsDepth(s);
    case DrainRequest =>
    case _ => JscTheorems.StepKeepsGate(s, step);
  }

  lemma {:induction false} EntriesWithin<V>(limits: Limits, policy: FinalEntryPolicy, steps: seq<Step<V>>)
    ensures var s := RunFromNew(limits, policy, steps); s.gate.entries == Entries(s.frames) <= limits.entries
    decreases |steps|
  {
    JscTheorems.Reachable(limits, policy, steps);
    if steps != [] {
      var before := steps[..|steps| - 1];
      EntriesWithin(limits, policy, before);
      RunKeepsLimits(limits, policy, before);
      StepKeepsEntries(RunFromNew(limits, policy, before), steps[|steps| - 1]);
    }
  }

  lemma FewerFunctions<V>(functions: set<V>, f: V)
    ensures |functions - {f}| <= |functions|
  {
    if f in functions {
      assert functions == (functions - {f}) + {f};
    } else {
      assert functions - {f} == functions;
    }
  }

  lemma OthersKeepFunctions<V>(s: Jsc<V>, step: Step<V>)
    requires !step.Enter? && !step.CloseScope? && !step.Install? && !step.Publish?
    requires !step.DetachWithEntry? && !step.DetachWithoutEntry? && !step.DropAttachment?
    ensures Next(s, step).functions == s.functions
  {
  }

  lemma StepKeepsFunctionLimit<V>(s: Jsc<V>, step: Step<V>)
    requires |s.functions| <= s.functionLimit
    ensures |Next(s, step).functions| <= s.functionLimit
  {
    match step
    case Enter =>
    case CloseScope(_) =>
    case Install(f) =>
    case Publish(_) =>
      if s.frames != [] && Top(s).Publishing? { FewerFunctions(s.functions, Top(s).callee); }
    case DetachWithEntry => WithEntryShape(s);
    case DetachWithoutEntry => WithoutEntryShape(s);
    case DropAttachment =>
    case _ => OthersKeepFunctions(s, step);
  }

  lemma {:induction false} FunctionsWithin<V>(limits: Limits, policy: FinalEntryPolicy, steps: seq<Step<V>>)
    ensures |RunFromNew(limits, policy, steps).functions| <= limits.functions
    decreases |steps|
  {
    if steps != [] {
      var before := steps[..|steps| - 1];
      FunctionsWithin(limits, policy, before);
      RunKeepsLimits(limits, policy, before);
      StepKeepsFunctionLimit(RunFromNew(limits, policy, before), steps[|steps| - 1]);
    }
  }

  /** The step asks the attachment to drain, or to end, which asks for it too. */
  predicate AsksToDrain<V>(s: Jsc<V>, step: Step<V>) {
    step.DrainRequest? || step.DetachWithEntry? || step.DetachWithoutEntry? || (step.DropAttachment? && s.frames == [])
  }

  lemma WithEntryStops<V>(s: Jsc<V>)
    ensures !DoDetachWithEntry(s).1.gate.state.Active?
  {
  }

  lemma WithoutEntryStops<V>(s: Jsc<V>)
    ensures !DoDetachWithoutEntry(s).1.gate.state.Active?
  {
  }

  lemma DropStops<V>(s: Jsc<V>)
    ensures DoDropAttachment(s).gate.state.Active? <==> s.gate.state.Active? && s.frames != []
  {
  }

  lemma StepStopsExactly<V>(s: Jsc<V>, step: Step<V>)
    ensures Next(s, step).gate.state.Active? <==> s.gate.state.Active? && !AsksToDrain(s, step)
  {
    match step
    case Enter =>
    case CloseScope(_) =>
    case DrainRequest =>
    case DetachWithEntry => WithEntryStops(s);
    case DetachWithoutEntry => WithoutEntryStops(s);
    case DropAttachment => DropStops(s);
    case _ => JscTheorems.StepKeepsGate(s, step);
  }

  ghost predicate AskedToDrain<V>(limits: Limits, policy: FinalEntryPolicy, steps: seq<Step<V>>)
    decreases |steps|
  {
    steps != [] &&
      var before := steps[..|steps| - 1];
      AskedToDrain(limits, policy, before) || AsksToDrain(RunFromNew(limits, policy, before), steps[|steps| - 1])
  }

  /** The attachment is active, and admits entries, scopes, checked operations and functions, until it is first
      asked to drain or to end, and never again. */
  lemma {:induction false} ActiveUntilAsked<V>(limits: Limits, policy: FinalEntryPolicy, steps: seq<Step<V>>)
    ensures RunFromNew(limits, policy, steps).gate.state.Active? <==> !AskedToDrain(limits, policy, steps)
    decreases |steps|
  {
    if steps != [] {
      var before := steps[..|steps| - 1];
      ActiveUntilAsked(limits, policy, before);
      StepStopsExactly(RunFromNew(limits, policy, before), steps[|steps| - 1]);
    }
  }
}
