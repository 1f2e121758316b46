/** How long a persistent handle lasts. */
module JscHandles {
  import opened Wrappers
  import opened RootTable
  import R = RootRegistry
  import opened Entry
  import opened JscRuntime
  import opened JscBalance

  /** The step ends the attachment. */
  ghost predicate TearsDown<V>(s: Jsc<V>, step: Step<V>) {
    match step
    case DetachWithEntry => !s.gate.state.Destroyed? && s.gate.RequestDrain().TryBeginCleanup().0.Ok?
    case DetachWithoutEntry => !s.gate.state.Destroyed? && s.gate.RequestDrain().TryFinish().0.Ok?
    case DropAttachment => !s.gate.state.Destroyed? && s.frames == []
    case _ => false
  }

  /** The step ends the handle: its release, the drop of its lease, or the end of the attachment. */
  ghost predicate Ends<V>(s: Jsc<V>, step: Step<V>, id: RootId) {
    || (step == Release(id) && s.frames != [])
    || (step == DropLease(id) && s.gate.state.Active?)
    || TearsDown(s, step)
  }

  lemma {:induction false} DrainReleasesKeepsHandle<V>(l: Roots<V>, e: Engine<V>, id: RootId)
    requires id in Issued(l)
    ensures var m := DrainReleases(l, e).0; id in Issued(m) && Lookup(m, id) == Lookup(l, id)
    decreases Pending(l)
  {
    Takes(l);
    var m, given := Apply(l, R.DoTake), Reply(l, R.DoTake).given;
    if given != [] {
      KeepsHandle(l, R.DoTake, id);
      DrainReleasesKeepsHandle(m, e.Unprotect(multiset(given)), id);
    }
  }

  lemma CloseScopeKeepsHandle<V>(s: Jsc<V>, unwinding: bool, id: RootId)
    requires id in Issued(s.roots)
    ensures var t := DoCloseScope(s, unwinding); id in Issued(t.roots) && Lookup(t.roots, id) == Lookup(s.roots, id)
  {
    if s.frames != [] && Top(s).Scope? {
      DrainReleasesKeepsHandle(s.roots, s.engine.Unprotect(multiset(Top(s).roots)), id);
    }
  }

  lemma ReleaseKeepsHandle<V>(s: Jsc<V>, j: RootId, id: RootId)
    requires id in Issued(s.roots)
    ensures var t := DoRelease(s, j);
            && id in Issued(t.roots)
            && Lookup(t.roots, id) == if Ends(s, Release(j), id) then None else Lookup(s.roots, id)
  {
    Removes(s.roots, j);
    KeepsHandle(s.roots, R.DoRemove(j), id);
  }

  lemma LeasingKeepsHandle<V>(s: Jsc<V>, step: Step<V>, id: RootId)
    requires id in Issued(s.roots)
    requires step.Persist? || step.DropLease?
    ensures var t := Next(s, step);
            && id in Issued(t.roots)
            && Lookup(t.roots, id) == if Ends(s, step, id) then None else Lookup(s.roots, id)
  {
    match step
    case Persist(_, v) => KeepsHandle(s.roots, R.DoInsert(v), id);
    case DropLease(j) => KeepsHandle(s.roots, R.DoRelease(j), id);
  }

  lemma FramesAlone<V>(s: Jsc<V>, step: Step<V>)
    requires step.OpenScope? || step.Begin? || step.Prepare? || step.Finish? || step.Resolve?
          || step.Install? || step.Publish? || step.DrainRequest?
    ensures Next(s, step).roots == s.roots
  {
  }

  lemma DetachingEnds<V>(s: Jsc<V>, step: Step<V>, id: RootId)
    requires id in Issued(s.roots)
    requires step.DetachWithEntry? || step.DetachWithoutEntry? || step.DropAttachment?
    ensures var t := Next(s, step);
            t.roots == if Ends(s, step, id) then Apply(s.roots, R.DoDrain) else s.roots
  {
  }

  /** A step leaves a handle as it was or ends it. */
  lemma StepKeepsHandle<V>(s: Jsc<V>, step: Step<V>, id: RootId)
    requires id in Issued(s.roots)
    ensures var t := Next(s, step);
            && id in Issued(t.roots)
            && Lookup(t.roots, id) == if Ends(s, step, id) then None else Lookup(s.roots, id)
  {
    match step
    case Enter => DrainReleasesKeepsHandle(s.roots, s.engine, id);
    case CloseScope(unwinding) => CloseScopeKeepsHandle(s, unwinding, id);
    case Persist(_, _) => LeasingKeepsHandle(s, step, id);
    case Release(j) => ReleaseKeepsHandle(s, j, id);
    case DropLease(_) => LeasingKeepsHandle(s, step, id);
    case DetachWithEntry => DetachingEnds(s, step, id); KeepsHandle(s.roots, R.DoDrain, id);
    case DetachWithoutEntry => DetachingEnds(s, step, id); KeepsHandle(s.roots, R.DoDrain, id);
    case DropAttachment => DetachingEnds(s, step, id); KeepsHandle(s.roots, R.DoDrain, id);
    case _ => FramesAlone(s, step);
  }

  /** No step of the run ends the handle. */
  ghost predicate Undisturbed<V>(s: Jsc<V>, steps: seq<Step<V>>, id: RootId)
    decreases |steps|
  {
    steps != [] ==>
      var before := steps[..|steps| - 1];
      Undisturbed(s, before, id) && !Ends(Run(s, before), steps[|steps| - 1], id)
  }

  /** An issued handle resolves to what it did until the first step that ends it, and never again. */
  lemma {:induction false} HandleLasts<V>(s: Jsc<V>, steps: seq<Step<V>>, id: RootId)
    requires id in Issued(s.roots)
    ensures var t := Run(s, steps);
            && id in Issued(t.roots)
            && Lookup(t.roots, id) == if Undisturbed(s, steps, id) then Lookup(s.roots, id) else None
    decreases |steps|
  {
    if steps != [] {
      var before := steps[..|steps| - 1];
      HandleLasts(s, before, id);
      StepKeepsHandle(Run(s, before), steps[|steps| - 1], id);
    }
  }

  lemma PersistBinds<V>(s: Jsc<V>, checked: bool, v: V)
    requires DoPersist(s, checked, v) != s
    ensures var r, t := Reply(s.roots, R.DoInsert(v)).bound, DoPersist(s, checked, v);
            && r.Some? && r.value !in Issued(s.roots) && r.value in Issued(t.roots)
            && Lookup(t.roots, r.value) == Some(v)
  {
    var t := DoPersist(s, checked, v);
    R.StepIsMapStep(s.roots, R.DoInsert(v));
    LooksUp(t.roots, Reply(s.roots, R.DoInsert(v)).bound.value);
  }

  /** A persisted value gets a handle never issued before. Whatever steps follow, the handle resolves to
      the value, in any open scope with budget left, until a step ends it, and to nothing afterwards. */
  lemma {:induction false} PersistThenResolve<V>(s: Jsc<V>, checked: bool, v: V, steps: seq<Step<V>>, scope: nat)
    requires DoPersist(s, checked, v) != s
    ensures var id, t := Reply(s.roots, R.DoInsert(v)).bound, DoPersist(s, checked, v);
            var u := Run(t, steps);
            && id.Some? && id.value !in Issued(s.roots)
            && Lookup(u.roots, id.value) == (if Undisturbed(t, steps, id.value) then Some(v) else None)
            && (Undisturbed(t, steps, id.value) && ScopeAt(u, scope) && u.budget.used < u.budget.limit ==>
                  DoResolve(u, id.value, true, scope) == Root(u.(budget := u.budget.ReserveMany(1).1), v, scope))
  {
    PersistBinds(s, checked, v);
    HandleLasts(DoPersist(s, checked, v), steps, Reply(s.roots, R.DoInsert(v)).bound.value);
  }
}
