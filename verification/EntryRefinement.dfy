/** The entry gate under any number of guards, and the lifecycle reference it refines. */
module EntryRefinement {
  import opened Words
  import opened Wrappers
  import opened Entry
  import L = Lifecycle

  /** A gate with the guards alive on it. An entry guard is named by its place among all guards ever
    granted; `cleanups` counts the cleanup guards alive. */
  datatype Host = Host(gate: Gate, guards: set<nat>, granted: nat, cleanups: nat)

  datatype Step =
    | DoEnter
    | DoExit(guard: nat)
    | DoRequest
    | DoBeginCleanup
    | DoEndCleanup(completed: bool)
    | DoFinish
    | DoDestroy

  /** Only a live guard can be dropped. */
  function Next(h: Host, s: Step): Host {
    match s
    case DoEnter =>
      var (r, g) := h.gate.TryEnter();
      if r.Ok? then Host(g, h.guards + {h.granted + 1}, h.granted + 1, h.cleanups) else h
    case DoExit(i) =>
      if i in h.guards && h.gate.entries > 0 then h.(gate := h.gate.Exit(), guards := h.guards - {i}) else h
    case DoRequest => h.(gate := h.gate.RequestDrain())
    case DoBeginCleanup =>
      var (r, g) := h.gate.TryBeginCleanup();
      if r.Ok? then h.(gate := g, cleanups := h.cleanups + 1) else h
    case DoEndCleanup(completed) =>
      if h.cleanups > 0 then h.(gate := h.gate.EndCleanup(completed), cleanups := h.cleanups - 1) else h
    case DoFinish => h.(gate := h.gate.TryFinish().1)
    case DoDestroy => h.(gate := h.gate.MarkDestroyed().1)
  }

  function New(limit: nat, policy: FinalEntryPolicy): Host {
    Host(NewGate(limit, policy), {}, 0, 0)
  }

  function Run(h: Host, steps: seq<Step>): Host
    decreases |steps|
  {
    if steps == [] then h else Next(Run(h, steps[..|steps| - 1]), steps[|steps| - 1])
  }

  ghost predicate Inv(h: Host) {
    var g := h.gate;
    && g.entries == |h.guards| <= g.limit
    && (forall i :: i in h.guards ==> 1 <= i <= h.granted)
    && h.cleanups == (if g.cleanup then 1 else 0)
    && (g.cleanup ==> g.state.Draining? && g.entries == 0 && g.finalEntry.None?)
    && (g.state.Active? ==> g.finalEntry.None?)
    && (g.finalEntry.Some? || g.state.Invalid? || g.state.Destroyed? ==> g.entries == 0)
    && (g.state.Invalid? || g.state.Destroyed? ==> g.finalEntry.Some?)
    && (g.state.Draining? && g.finalEntry.Some? ==> g.finalEntry.value.Completed?)
    && (g.policy.Guaranteed? && g.finalEntry.Some? ==> g.finalEntry.value.Completed?)
    && (g.policy.NeverAvailable? ==> !g.cleanup && g.finalEntry != Some(Completed))
  }

  lemma StepKeepsInv(h: Host, s: Step)
    requires Inv(h)
    ensures Inv(Next(h, s))
  {
  }

  lemma {:induction false} RunKeepsInv(h: Host, steps: seq<Step>)
    requires Inv(h)
    ensures Inv(Run(h, steps))
    decreases |steps|
  {
    if steps != [] {
      RunKeepsInv(h, steps[..|steps| - 1]);
      StepKeepsInv(Run(h, steps[..|steps| - 1]), steps[|steps| - 1]);
    }
  }

  /** The reference's answer to the gate's answer. */
  function Translate(e: GateError): L.LifecycleError {
    match e
    case NotActive(s) => L.LifecycleError.NotActive(s)
    case EntriesRemain(n) => L.LifecycleError.EntriesRemain(n)
    case InvalidTransition(s, o) => L.LifecycleError.InvalidTransition(s, o)
    case _ => L.StaleEntry
  }

  /** The calls on the reference one gate step amounts to, with the gate's own answer. A rejection
    for depth, for a live cleanup or for a missing final entry has no counterpart. */
  function CallsOf<A>(attachment: A, h: Host, s: Step): seq<L.Call<A>> {
    match s
    case DoEnter =>
      (match h.gate.TryEnter().0
       case Ok(_) => [L.CallEnter(Ok(L.Token(attachment, h.granted + 1)))]
       case Err(DepthLimit) => []
       case Err(e) => [L.CallEnter(Err(Translate(e)))])
    case DoExit(i) => if i in h.guards then [L.CallExit(L.Token(attachment, i), Ok(()))] else []
    case DoRequest => [L.CallRequest]
    case DoBeginCleanup => []
    case DoEndCleanup(_) => []
    case DoFinish =>
      (match h.gate.TryFinish().0
       case Ok(_) => [L.CallFinish(Ok(()))]
       case Err(CleanupInProgress) => []
       case Err(FinalEntryRequired) => []
       case Err(e) => [L.CallFinish(Err(Translate(e)))])
    case DoDestroy =>
      (match h.gate.MarkDestroyed().0
       case Ok(_) => [L.CallDestroy(Ok(()))]
       case Err(e) => [L.CallDestroy(Err(Translate(e)))])
  }

  function Trace<A>(attachment: A, h: Host, steps: seq<Step>): seq<L.Call<A>>
    decreases |steps|
  {
    if steps == [] then []
    else
      var before := steps[..|steps| - 1];
      Trace(attachment, h, before) + CallsOf(attachment, Run(h, before), steps[|steps| - 1])
  }

  ghost predicate Related<A>(attachment: A, h: Host, m: L.Model<A>) {
    && m.attachment == attachment
    && m.state == h.gate.state
    && m.nextEntry == h.granted + 1
    && L.Elements(m.live) == h.guards
    && |m.live| == h.gate.entries
  }

  lemma EmptyTogether(live: seq<nat>)
    ensures L.Elements(live) == {} <==> live == []
  {
    if live != [] {
      assert live[0] in L.Elements(live);
    }
  }

  /** The reference after at most one call. */
  function After<A>(m: L.Model<A>, calls: seq<L.Call<A>>): L.Model<A> {
    if calls == [] then m else L.Perform(m, calls[0]).1
  }

  ghost predicate Answered<A>(m: L.Model<A>, calls: seq<L.Call<A>>) {
    calls == [] || L.Perform(m, calls[0]).0 == calls[0]
  }

  lemma EnterRefines<A>(attachment: A, h: Host, m: L.Model<A>)
    requires Inv(h) && Related(attachment, h, m)
    ensures var calls := CallsOf(attachment, h, DoEnter);
            && (Answered(m, calls) <==> Next(h, DoEnter).granted < U64_MAX || Next(h, DoEnter) == h)
            && (Answered(m, calls) ==> Related(attachment, Next(h, DoEnter), After(m, calls)))
  {
    assert m.nextEntry !in L.Elements(m.live);
    L.AddOne(m.live, m.nextEntry);
  }

  lemma ExitRefines<A>(attachment: A, h: Host, m: L.Model<A>, i: nat)
    requires Inv(h) && Related(attachment, h, m)
    ensures var calls := CallsOf(attachment, h, DoExit(i));
            Answered(m, calls) && Related(attachment, Next(h, DoExit(i)), After(m, calls))
  {
    if i in h.guards {
      assert i in L.Elements(m.live);
      L.SwapRemoveSpec(m.live, L.Position(m.live, i));
      assert m.live != [];
    }
  }

  lemma TransitionRefines<A>(attachment: A, h: Host, m: L.Model<A>, s: Step)
    requires Inv(h) && h.gate.limit <= U32_MAX && Related(attachment, h, m)
    requires !s.DoEnter? && !s.DoExit?
    ensures var calls := CallsOf(attachment, h, s);
            Answered(m, calls) && Related(attachment, Next(h, s), After(m, calls))
  {
  }

  /** One gate step is at most one call of the reference, answered alike while entry numbers last. */
  lemma StepRefines<A>(attachment: A, h: Host, m: L.Model<A>, s: Step)
    requires Inv(h) && h.gate.limit <= U32_MAX && Related(attachment, h, m)
    ensures var calls := CallsOf(attachment, h, s);
            && |calls| <= 1
            && (Answered(m, calls) <==> Next(h, s).granted < U64_MAX || Next(h, s).granted == h.granted)
            && (Answered(m, calls) ==> Related(attachment, Next(h, s), After(m, calls)))
  {
    match s
    case DoEnter => EnterRefines(attachment, h, m);
    case DoExit(i) => ExitRefines(attachment, h, m, i);
    case _ => TransitionRefines(attachment, h, m, s);
  }

  lemma {:induction false} AtMostOneMore<A>(m: L.Model<A>, calls: seq<L.Call<A>>, more: seq<L.Call<A>>)
    requires |more| <= 1
    ensures L.Replay(m, calls + more) == After(L.Replay(m, calls), more)
    ensures L.Answers(m, calls + more) <==> L.Answers(m, calls) && Answered(L.Replay(m, calls), more)
  {
    if more == [] {
      assert calls + more == calls;
    } else {
      assert (calls + more)[..|calls|] == calls;
    }
  }

  /** The reference gives the gate's answers exactly as long as its entry numbers last, under every
      policy and for every history of entries, exits, drains, cleanups and teardown. */
  lemma {:induction false} RefinesExactlyWhileEntriesLast<A>(attachment: A, limit: nat, policy: FinalEntryPolicy, steps: seq<Step>)
    requires 0 < limit <= U32_MAX
    ensures var h := Run(New(limit, policy), steps);
            var calls := Trace(attachment, New(limit, policy), steps);
            && (L.Answers(L.NewModel(attachment), calls) <==> h.granted < U64_MAX)
            && (h.granted < U64_MAX ==> Related(attachment, h, L.Replay(L.NewModel(attachment), calls)))
    decreases |steps|
  {
    if steps != [] {
      var init, m0 := New(limit, policy), L.NewModel(attachment);
      var before, s := steps[..|steps| - 1], steps[|steps| - 1];
      var h := Run(init, before);
      var calls := Trace(attachment, init, before);
      RefinesExactlyWhileEntriesLast(attachment, limit, policy, before);
      RunKeepsInv(init, before);
      LimitIsFixed(init, before);
      GrantsGrow(h, s);
      if h.granted < U64_MAX {
        StepRefines(attachment, h, L.Replay(m0, calls), s);
      }
      StepIsAtMostOneCall(attachment, h, s);
      AtMostOneMore(m0, calls, CallsOf(attachment, h, s));
    }
  }

  lemma StepIsAtMostOneCall<A>(attachment: A, h: Host, s: Step)
    ensures |CallsOf(attachment, h, s)| <= 1
  {
  }

  lemma GrantsGrow(h: Host, s: Step)
    ensures h.granted <= Next(h, s).granted <= h.granted + 1
  {
  }

  /** The trace the reference emits along a gate run is legal and ends in the gate's state: every live
      guard is an open entry, readiness was announced once, after the last exit, and invalidation
      only after it. */
  lemma {:induction false} GateTraceIsLegal<A>(attachment: A, limit: nat, policy: FinalEntryPolicy, steps: seq<Step>)
    requires 0 < limit <= U32_MAX
    requires Run(New(limit, policy), steps).granted < U64_MAX
    ensures var h := Run(New(limit, policy), steps);
            var events := L.Replay(L.NewModel(attachment), Trace(attachment, New(limit, policy), steps)).events;
            && L.Legal(events)
            && L.OpenEntries(events) == h.guards
            && L.EnteredCount(events) == h.granted
            && (L.DrainReady in events <==> !h.gate.state.Active? && (h.gate.state.Draining? ==> h.guards == {}))
            && (L.Invalidated in events <==> h.gate.state.Invalid? || h.gate.state.Destroyed?)
  {
    RefinesExactlyWhileEntriesLast(attachment, limit, policy, steps);
    L.ReplayIsConsistent(attachment, Trace(attachment, New(limit, policy), steps));
    EmptyTogether(L.Replay(L.NewModel(attachment), Trace(attachment, New(limit, policy), steps)).live);
  }

  lemma {:induction false} LimitIsFixed(h: Host, steps: seq<Step>)
    ensures Run(h, steps).gate.limit == h.gate.limit && Run(h, steps).gate.policy == h.gate.policy
    decreases |steps|
  {
    if steps != [] {
      LimitIsFixed(h, steps[..|steps| - 1]);
    }
  }

  /** Entries are the live guards and stay within the limit; a live cleanup guard excludes entries and
      is alone; a guaranteed final entry is never skipped and an unavailable one never claimed. */
  lemma {:induction false} FinalEntryIsSafe(limit: nat, policy: FinalEntryPolicy, steps: seq<Step>)
    requires 0 < limit
    ensures var h := Run(New(limit, policy), steps);
            var g := h.gate;
            && g.entries == |h.guards| <= limit
            && (h.cleanups > 0 ==> h.cleanups == 1 && g.state.Draining? && h.guards == {} && g.finalEntry.None?)
            && (g.state.Invalid? || g.state.Destroyed? ==> g.finalEntry.Some? && h.guards == {} && h.cleanups == 0)
            && (policy.Guaranteed? && (g.state.Invalid? || g.state.Destroyed?) ==> g.finalEntry == Some(Completed))
            && (policy.NeverAvailable? ==> g.finalEntry != Some(Completed))
  {
    RunKeepsInv(New(limit, policy), steps);
    LimitIsFixed(New(limit, policy), steps);
  }

  lemma StepMovesForward(h: Host, s: Step)
    requires Inv(h)
    ensures StateIndex(h.gate.state) <= StateIndex(Next(h, s).gate.state)
    ensures h.gate.finalEntry.Some? ==> Next(h, s).gate.finalEntry == h.gate.finalEntry
  {
  }

  /** The state never goes back, and a recorded outcome never changes. */
  lemma {:induction false} StateIsMonotone(limit: nat, policy: FinalEntryPolicy, steps: seq<Step>, k: nat)
    requires 0 < limit && k <= |steps|
    ensures var before, after := Run(New(limit, policy), steps[..k]).gate, Run(New(limit, policy), steps).gate;
            && StateIndex(before.state) <= StateIndex(after.state)
            && (before.finalEntry.Some? ==> after.finalEntry == before.finalEntry)
    decreases |steps|
  {
    if k == |steps| {
      assert steps[..k] == steps;
    } else {
      var shorter := steps[..|steps| - 1];
      assert shorter[..k] == steps[..k];
      StateIsMonotone(limit, policy, shorter, k);
      RunKeepsInv(New(limit, policy), shorter);
      StepMovesForward(Run(New(limit, policy), shorter), steps[|steps| - 1]);
    }
  }

  /** `n` entries, each left before the next. */
  function Visits(n: nat): seq<Step> {
    if n == 0 then [] else Visits(n - 1) + [DoEnter] + [DoExit(n)]
  }

  lemma {:induction false} OneMore(h: Host, steps: seq<Step>, s: Step)
    ensures Run(h, steps + [s]) == Next(Run(h, steps), s)
  {
    assert (steps + [s])[..|steps|] == steps;
  }

  lemma {:induction false} VisitsAreGranted(limit: nat, policy: FinalEntryPolicy, n: nat)
    requires 0 < limit
    ensures Run(New(limit, policy), Visits(n)) == New(limit, policy).(granted := n)
  {
    if n > 0 {
      var init := New(limit, policy);
      VisitsAreGranted(limit, policy, n - 1);
      OneMore(init, Visits(n - 1), DoEnter);
      OneMore(init, Visits(n - 1) + [DoEnter], DoExit(n));
      assert Run(init, Visits(n)).guards == {};
    }
  }

  /** Some run grants more entries than the reference has numbers for; there the answers part. */
  lemma RunsOutliveTheReference<A>(attachment: A, limit: nat, policy: FinalEntryPolicy)
    requires 0 < limit <= U32_MAX
    ensures !L.Answers(L.NewModel(attachment), Trace(attachment, New(limit, policy), Visits(U64_MAX)))
  {
    VisitsAreGranted(limit, policy, U64_MAX);
    RefinesExactlyWhileEntriesLast(attachment, limit, policy, Visits(U64_MAX));
  }

  /** Some live cleanup guard was completed. */
  predicate CleanupCompleted(limit: nat, policy: FinalEntryPolicy, steps: seq<Step>)
    decreases |steps|
  {
    steps != [] &&
      var before := steps[..|steps| - 1];
      || CleanupCompleted(limit, policy, before)
      || (steps[|steps| - 1] == DoEndCleanup(true) && Run(New(limit, policy), before).cleanups > 0)
  }

  lemma OnlyCleanupCompletes(h: Host, s: Step)
    requires Inv(h)
    ensures Next(h, s).gate.finalEntry == Some(Completed)
       <==> h.gate.finalEntry == Some(Completed) || (s == DoEndCleanup(true) && h.cleanups > 0)
  {
  }

  /** The gate records Completed if and only if a cleanup guard was completed; one that is merely dropped
      leaves no outcome, so cleanup can be begun again. */
  lemma {:induction false} CompletedMeansCleanup(limit: nat, policy: FinalEntryPolicy, steps: seq<Step>)
    requires 0 < limit
    ensures Run(New(limit, policy), steps).gate.finalEntry == Some(Completed) <==> CleanupCompleted(limit, policy, steps)
    decreases |steps|
  {
    if steps != [] {
      var before := steps[..|steps| - 1];
      CompletedMeansCleanup(limit, policy, before);
      RunKeepsInv(New(limit, policy), before);
      OnlyCleanupCompletes(Run(New(limit, policy), before), steps[|steps| - 1]);
    }
  }

  /** Draining finishes if and only if it was requested, no guard of either kind is live, and the final entry,
      if promised, was completed. */
  lemma {:induction false} FinishesExactly(limit: nat, policy: FinalEntryPolicy, steps: seq<Step>)
    requires 0 < limit
    ensures var h := Run(New(limit, policy), steps);
            h.gate.TryFinish().0.Ok? <==>
              || h.gate.state.Invalid?
              || (&& h.gate.state.Draining? && h.guards == {} && h.cleanups == 0
                  && (policy.Guaranteed? ==> CleanupCompleted(limit, policy, steps)))
  {
    RunKeepsInv(New(limit, policy), steps);
    LimitIsFixed(New(limit, policy), steps);
    CompletedMeansCleanup(limit, policy, steps);
  }

  /** A cleanup begins if and only if draining was requested, no guard of either kind is live, the host can
      provide the entry, and none was completed. */
  lemma {:induction false} CleanupBeginsExactly(limit: nat, policy: FinalEntryPolicy, steps: seq<Step>)
    requires 0 < limit
    ensures var h := Run(New(limit, policy), steps);
            h.gate.TryBeginCleanup().0.Ok? <==>
              && h.gate.state.Draining? && h.guards == {} && h.cleanups == 0
              && !policy.NeverAvailable? && !CleanupCompleted(limit, policy, steps)
  {
    RunKeepsInv(New(limit, policy), steps);
    LimitIsFixed(New(limit, policy), steps);
    CompletedMeansCleanup(limit, policy, steps);
  }

  /** The gate is active until draining is requested, and never again. */
  lemma {:induction false} ActiveUntilRequested(limit: nat, policy: FinalEntryPolicy, steps: seq<Step>)
    ensures Run(New(limit, policy), steps).gate.state.Active? <==> DoRequest !in steps
    decreases |steps|
  {
    if steps != [] {
      ActiveUntilRequested(limit, policy, steps[..|steps| - 1]);
      assert steps == steps[..|steps| - 1] + [steps[|steps| - 1]];
    }
  }

  /** An entry is admitted if and only if draining was not requested and fewer guards are live than the limit
      allows; it is refused for depth exactly when they are as many, and for the state exactly after a
      request. An admitted one is a new guard beside those live. */
  lemma {:induction false} EntersExactly(limit: nat, policy: FinalEntryPolicy, steps: seq<Step>)
    requires 0 < limit
    ensures var h := Run(New(limit, policy), steps);
            var r := h.gate.TryEnter().0;
            && (r.Ok? <==> DoRequest !in steps && |h.guards| < limit)
            && (r == Err(DepthLimit) <==> DoRequest !in steps && |h.guards| == limit)
            && (r == Err(NotActive(h.gate.state)) <==> DoRequest in steps)
            && (if r.Ok? then h.granted + 1 !in h.guards && Next(h, DoEnter).guards == h.guards + {h.granted + 1}
                else Next(h, DoEnter) == h)
  {
    RunKeepsInv(New(limit, policy), steps);
    LimitIsFixed(New(limit, policy), steps);
    ActiveUntilRequested(limit, policy, steps);
  }

  /** What a finish answers when it is refused, and the outcome it reports when it is not. */
  lemma {:induction false} FinishAnswersExactly(limit: nat, policy: FinalEntryPolicy, steps: seq<Step>)
    requires 0 < limit
    ensures var h := Run(New(limit, policy), steps);
            var r := h.gate.TryFinish().0;
            && (r == Err(CleanupInProgress) <==> h.cleanups > 0)
            && (r == Err(EntriesRemain(|h.guards|)) <==> h.gate.state.Draining? && h.guards != {})
            && (r == Err(FinalEntryRequired) <==>
                  && h.gate.state.Draining? && h.guards == {} && h.cleanups == 0
                  && policy.Guaranteed? && !CleanupCompleted(limit, policy, steps))
            && (r == Err(InvalidTransition(h.gate.state, FinishDrain)) <==> h.gate.state.Active? || h.gate.state.Destroyed?)
            && (r.Ok? ==> r.value == if CleanupCompleted(limit, policy, steps) then Completed else Unavailable)
  {
    RunKeepsInv(New(limit, policy), steps);
    LimitIsFixed(New(limit, policy), steps);
    CompletedMeansCleanup(limit, policy, steps);
  }

  /** Why a cleanup cannot begin, the first reason that applies. */
  lemma {:induction false} CleanupAnswersExactly(limit: nat, policy: FinalEntryPolicy, steps: seq<Step>)
    requires 0 < limit
    ensures var h := Run(New(limit, policy), steps);
            var r := h.gate.TryBeginCleanup().0;
            && (r == Err(InvalidTransition(h.gate.state, BeginCleanup)) <==> !h.gate.state.Draining?)
            && (r == Err(EntriesRemain(|h.guards|)) <==> h.gate.state.Draining? && h.guards != {})
            && (r == Err(FinalEntryUnavailable) <==> h.gate.state.Draining? && h.guards == {} && policy.NeverAvailable?)
            && (r == Err(FinalEntryComplete) <==>
                  h.gate.state.Draining? && h.guards == {} && CleanupCompleted(limit, policy, steps))
            && (r == Err(CleanupInProgress) <==> h.gate.state.Draining? && h.cleanups > 0)
  {
    RunKeepsInv(New(limit, policy), steps);
    LimitIsFixed(New(limit, policy), steps);
    CompletedMeansCleanup(limit, policy, steps);
  }

  /** Some finish of the drain succeeded. */
  predicate DrainFinished(limit: nat, policy: FinalEntryPolicy, steps: seq<Step>)
    decreases |steps|
  {
    steps != [] &&
      var before := steps[..|steps| - 1];
      || DrainFinished(limit, policy, before)
      || (steps[|steps| - 1].DoFinish? && Run(New(limit, policy), before).gate.TryFinish().0.Ok?)
  }

  lemma {:induction false} PastDrainMeansFinished(limit: nat, policy: FinalEntryPolicy, steps: seq<Step>)
    ensures var g := Run(New(limit, policy), steps).gate;
            g.state.Invalid? || g.state.Destroyed? <==> DrainFinished(limit, policy, steps)
    decreases |steps|
  {
    if steps != [] {
      PastDrainMeansFinished(limit, policy, steps[..|steps| - 1]);
    }
  }

  /** The engine is marked destroyed if and only if the drain has finished, once or again. */
  lemma {:induction false} DestroysExactly(limit: nat, policy: FinalEntryPolicy, steps: seq<Step>)
    ensures var h := Run(New(limit, policy), steps);
            var r := h.gate.MarkDestroyed().0;
            && (r.Ok? <==> DrainFinished(limit, policy, steps))
            && (r.Ok? ==> Next(h, DoDestroy) == h.(gate := h.gate.(state := Destroyed)))
            && (r.Err? ==> r.error == InvalidTransition(h.gate.state, Destroy) && Next(h, DoDestroy) == h)
  {
    PastDrainMeansFinished(limit, policy, steps);
  }
}
