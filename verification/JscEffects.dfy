/** What each operation of an attachment takes and gives, exactly, on every run. */
module JscEffects {
  import opened RootTable
  import opened Entry
  import opened JscRuntime
  import opened JscBalance
  import opened JscHandles
  import opened JscLimits
  import opened JscNesting
  import JscTheorems
  import Bags

  /** Steps are taken inside an entry. */
  ghost predicate Inside<V>(s: Jsc<V>) {
    Entries(s.frames) > 0
  }

  lemma InsideMeansFrames<V>(s: Jsc<V>)
    requires Entered(s)
    ensures Inside(s) <==> s.frames != []
  {
    EntriesPositive(s.frames);
  }

  /** An entry is admitted if and only if the attachment is active and fewer entries are open than allowed. It
      opens a scope on top, counts itself, and unprotects what dropped leases have queued. */
  ghost predicate EnterEffect<V>(s: Jsc<V>, t: Jsc<V>) {
    if s.gate.state.Active? && Entries(s.frames) < s.gate.limit then
      && t.frames == s.frames + [Scope(true, [])]
      && t.gate == s.gate.(entries := Entries(t.frames))
      && t.engine == s.engine.Unprotect(multiset(Releasing(s.roots)))
      && Table(t.roots) == Table(s.roots) && Releasing(t.roots) == []
      && (t.functions, t.budget, t.abandoned) == (s.functions, s.budget, s.abandoned)
    else t == s
  }

  lemma EnterAccounts<V>(s: Jsc<V>)
    requires Inv(s)
    ensures var t := DoEnter(s);
            if s.gate.state.Active? && Entries(s.frames) < s.gate.limit then
              && t.frames == s.frames + [Scope(true, [])]
              && t.gate == s.gate.(entries := Entries(t.frames))
              && (t.functions, t.budget, t.abandoned) == (s.functions, s.budget, s.abandoned)
            else t == s
  {
    PushFrame(s.frames, Scope(true, []));
  }

  lemma EntersExactly<V>(s: Jsc<V>)
    requires Inv(s)
    ensures EnterEffect(s, DoEnter(s))
  {
    EnterAccounts(s);
    JscTheorems.EnterReleases(s);
  }

  /** Inside an entry of an active attachment, and nowhere else, a scope can be opened. */
  ghost predicate OpenEffect<V>(s: Jsc<V>, t: Jsc<V>) {
    t == if Inside(s) && s.gate.state.Active? then Pushed(s, Scope(false, [])) else s
  }

  /** What the frames protect is protected. */
  lemma {:induction false} FrameIsRooted<V>(frames: seq<Frame<V>>, k: nat)
    requires k < |frames|
    ensures multiset(FrameValues(frames[k])) <= Rooted(frames)
  {
    if k < |frames| - 1 {
      FrameIsRooted(frames[..|frames| - 1], k);
    }
  }

  lemma FrameIsProtected<V>(s: Jsc<V>, k: nat)
    requires Balanced(s) && k < |s.frames|
    ensures multiset(FrameValues(s.frames[k])) <= s.engine.protections
  {
    FrameIsRooted(s.frames, k);
    OwedApart(s);
  }

  lemma LeaveUnprotects<V>(s: Jsc<V>)
    requires Balanced(s) && Entered(s) && s.frames != [] && Top(s).Scope? && Top(s).entry
    ensures var t := DoCloseScope(s, false);
            && Releasing(t.roots) == [] && Table(t.roots) == Table(s.roots)
            && t.engine.protections == s.engine.protections - multiset(Top(s).roots) - multiset(Releasing(s.roots))
  {
    JscTheorems.LeaveReleases(s);
    JscTheorems.ReleasingIsOwed(s);
    var locals, queued := multiset(Top(s).roots), multiset(Releasing(s.roots));
    assert locals <= Rooted(s.frames);
    Bags.Sooner(locals, Rooted(s.frames), queued, s.engine.protections);
    Bags.TakeTwice(s.engine.protections, locals, queued);
  }

  /** The scope on top closes. It unprotects its own roots and returns their budget; an entry gives back its place
      too and, left without a panic, unprotects what dropped leases have queued. */
  ghost predicate CloseEffect<V>(s: Jsc<V>, unwinding: bool, t: Jsc<V>) {
    if s.frames != [] && Top(s).Scope? then CloseAccount(s, t) && CloseRelease(s, unwinding, t) else t == s
  }

  ghost predicate CloseAccount<V>(s: Jsc<V>, t: Jsc<V>)
    requires s.frames != [] && Top(s).Scope?
  {
    && t.frames == s.frames[..|s.frames| - 1]
    && t.budget == s.budget.(used := Admitted(t.frames)) && Admitted(t.frames) + |Top(s).roots| == s.budget.used
    && t.gate == s.gate.(entries := Entries(t.frames))
    && t.functions == s.functions && t.abandoned == s.abandoned
  }

  ghost predicate CloseRelease<V>(s: Jsc<V>, unwinding: bool, t: Jsc<V>)
    requires s.frames != [] && Top(s).Scope?
  {
    var locals, queued := multiset(Top(s).roots), multiset(Releasing(s.roots));
    && Table(t.roots) == Table(s.roots)
    && (if Top(s).entry && !unwinding
        then Releasing(t.roots) == [] && t.engine.protections == s.engine.protections - locals - queued
        else t.roots == s.roots && t.engine.protections == s.engine.protections - locals)
  }

  lemma CloseAccounts<V>(s: Jsc<V>, unwinding: bool)
    requires Budgeted(s) && Entered(s) && s.frames != [] && Top(s).Scope?
    ensures CloseAccount(s, DoCloseScope(s, unwinding))
  {
  }

  lemma CloseReleases<V>(s: Jsc<V>, unwinding: bool)
    requires Balanced(s) && Entered(s) && s.frames != [] && Top(s).Scope?
    ensures CloseRelease(s, unwinding, DoCloseScope(s, unwinding))
  {
    if Top(s).entry && !unwinding {
      LeaveUnprotects(s);
    } else {
      FrameIsProtected(s, |s.frames| - 1);
    }
  }

  lemma ClosesExactly<V>(s: Jsc<V>, unwinding: bool)
    requires Inv(s)
    ensures CloseEffect(s, unwinding, DoCloseScope(s, unwinding))
  {
    if s.frames != [] && Top(s).Scope? {
      CloseAccounts(s, unwinding);
      CloseReleases(s, unwinding);
    }
  }

  /** An operation is admitted if and only if it is asked for inside an entry, of an active attachment if that is
      checked, and its result and string arguments fit the budget together; it takes exactly those. */
  ghost predicate BeginEffect<V>(s: Jsc<V>, checked: bool, strings: nat, t: Jsc<V>) {
    t == if Inside(s) && (checked ==> s.gate.state.Active?) && Admitted(s.frames) + 1 + strings <= s.budget.limit
         then Pushed(s, Operation(strings, [])).(budget := s.budget.(used := s.budget.used + 1 + strings))
         else s
  }

  lemma BeginsExactly<V>(s: Jsc<V>, checked: bool, strings: nat)
    requires Inv(s)
    ensures BeginEffect(s, checked, strings, DoBegin(s, checked, strings))
  {
    InsideMeansFrames(s);
    ReservesTogether(s.budget, strings);
  }

  /** An argument is protected and kept with the operation on top, if it still expects one. */
  ghost predicate PrepareEffect<V>(s: Jsc<V>, v: V, t: Jsc<V>) {
    if s.frames != [] && Top(s).Operation? && |Top(s).arguments| < Top(s).strings
    then t == s.(frames := s.frames[|s.frames| - 1 := Operation(Top(s).strings, Top(s).arguments + [v])],
                 engine := s.engine.(protections := s.engine.protections + multiset{v}))
    else t == s
  }

  lemma PreparesExactly<V>(s: Jsc<V>, v: V)
    ensures PrepareEffect(s, v, DoPrepare(s, v))
  {
    if s.frames != [] {
      assert s.frames == s.frames[..|s.frames| - 1] + [Top(s)];
    }
  }

  /** An operation that yields a value for an open scope roots it there: the value is last among the scope's roots
      and protected once more, the arguments are unprotected, and of what the operation reserved only the
      place of its result stays taken, now by the root. One that yields none gives everything back. */
  ghost predicate FinishEffect<V>(s: Jsc<V>, o: Outcome<V>, scope: nat, t: Jsc<V>) {
    if s.frames == [] || !Top(s).Operation? || (o.Managed? && !ScopeAt(s, scope)) then t == s
    else
      && multiset(Top(s).arguments) <= s.engine.protections && 1 + Top(s).strings <= s.budget.used
      && (if o.Managed? then RootedResult(s, o.value, scope, t)
          else t == Popped(s).(budget := s.budget.(used := s.budget.used - 1 - Top(s).strings),
                               engine := s.engine.(protections := s.engine.protections - multiset(Top(s).arguments))))
  }

  ghost predicate RootedResult<V>(s: Jsc<V>, v: V, scope: nat, t: Jsc<V>)
    requires s.frames != [] && Top(s).Operation? && ScopeAt(s, scope)
    requires Top(s).strings <= s.budget.used
  {
    var f := s.frames[scope];
    && scope < |s.frames| - 1
    && t.frames == s.frames[..|s.frames| - 1][scope := Scope(f.entry, f.roots + [v])]
    && t.engine == s.engine.(protections := s.engine.protections + multiset{v} - multiset(Top(s).arguments))
    && t.budget == s.budget.(used := s.budget.used - Top(s).strings)
    && (t.roots, t.functions, t.gate, t.abandoned) == (s.roots, s.functions, s.gate, s.abandoned)
  }

  lemma RootedBelow<V>(frames: seq<Frame<V>>, k: nat, f: Frame<V>)
    requires k < |frames| - 1
    ensures frames[k := f][..|frames| - 1] == frames[..|frames| - 1][k := f]
  {
  }

  lemma FinishRoots<V>(s: Jsc<V>, v: V, scope: nat)
    requires Inv(s) && s.frames != [] && Top(s).Operation? && ScopeAt(s, scope)
    ensures Top(s).strings <= s.budget.used && scope < |s.frames| - 1
    ensures var r, arguments := Root(s, v, scope), multiset(Top(s).arguments);
            DoFinish(s, Managed(v), scope)
            == Popped(r).(engine := r.engine.(protections := r.engine.protections - arguments),
                          budget := s.budget.(used := s.budget.used - Top(s).strings))
  {
    TopOperationIsCovered(s);
    assert multiset(Top(s).arguments) <= Root(s, v, scope).engine.protections;
  }

  lemma ResultIsRooted<V>(s: Jsc<V>, v: V, scope: nat)
    requires Inv(s) && s.frames != [] && Top(s).Operation? && ScopeAt(s, scope)
    ensures Top(s).strings <= s.budget.used && RootedResult(s, v, scope, DoFinish(s, Managed(v), scope))
  {
    var f := s.frames[scope];
    FinishRoots(s, v, scope);
    RootedBelow(s.frames, scope, Scope(f.entry, f.roots + [v]));
  }

  lemma FinishesExactly<V>(s: Jsc<V>, o: Outcome<V>, scope: nat)
    requires Inv(s)
    ensures FinishEffect(s, o, scope, DoFinish(s, o, scope))
  {
    if s.frames != [] && Top(s).Operation? {
      TopOperationIsCovered(s);
      if !o.Managed? {
        FinishGivesBack(s, o, scope);
      } else if ScopeAt(s, scope) {
        ResultIsRooted(s, o.value, scope);
      }
    }
  }

  /** A handle that resolves is rooted in the scope that asks, if the budget has room; a value that needs no root
      leaves everything as it was, and so does a refusal. */
  ghost predicate ResolveEffect<V>(s: Jsc<V>, id: RootId, managed: bool, scope: nat, t: Jsc<V>) {
    if managed && ScopeAt(s, scope) && id in Table(s.roots) && Admitted(s.frames) < s.budget.limit
    then
      var f, v := s.frames[scope], Table(s.roots)[id];
      t == s.(frames := s.frames[scope := Scope(f.entry, f.roots + [v])],
              engine := s.engine.(protections := s.engine.protections + multiset{v}),
              budget := s.budget.(used := s.budget.used + 1))
    else t == s
  }

  lemma ResolvesExactly<V>(s: Jsc<V>, id: RootId, managed: bool, scope: nat)
    requires Inv(s)
    ensures ResolveEffect(s, id, managed, scope, DoResolve(s, id, managed, scope))
  {
    LooksUp(s.roots, id);
  }

  /** A root given to a scope stays in it, protected, over every run in which the scope is not closed. */
  lemma {:induction false} RootStaysProtected<V>(s: Jsc<V>, later: seq<Step<V>>, scope: nat, v: V)
    requires Inv(s) && ScopeAt(s, scope) && v in s.frames[scope].roots && StaysOpen(s, later, scope)
    ensures var t := Run(s, later);
            && ScopeAt(t, scope) && s.frames[scope].roots <= t.frames[scope].roots
            && multiset(t.frames[scope].roots) <= t.engine.protections && v in t.engine.protections
  {
    RunGrowsFrames(s, later, scope);
    RunKeepsInv(s, later);
    var t := Run(s, later);
    FrameIsProtected(t, scope);
    assert v in multiset(t.frames[scope].roots);
  }

  /** A persist succeeds if and only if it is made inside an entry, of an active attachment if that is checked, and
      the values held, queued ones included, with the slots worn out leave room. It then protects the value
      once and holds it. */
  ghost predicate PersistEffect<V>(s: Jsc<V>, checked: bool, v: V, t: Jsc<V>) {
    if Inside(s) && (checked ==> s.gate.state.Active?) && |Held(s.roots)| + Worn(s.roots) < Limit(s.roots)
    then
      && Held(t.roots) == Held(s.roots) + multiset{v} && Releasing(t.roots) == Releasing(s.roots)
      && t == s.(roots := t.roots, engine := s.engine.(protections := s.engine.protections + multiset{v}))
    else t == s
  }

  lemma PersistsExactly<V>(s: Jsc<V>, checked: bool, v: V)
    requires Inv(s)
    ensures PersistEffect(s, checked, v, DoPersist(s, checked, v))
  {
    InsideMeansFrames(s);
    Inserts(s.roots, v);
    WornWithin(s.roots);
  }

  /** Inside an entry a handle that resolves can be released: it ends, no other does, and its value is unprotected
      once. One that does not resolve changes nothing. */
  ghost predicate ReleaseEffect<V>(s: Jsc<V>, id: RootId, t: Jsc<V>) {
    if Inside(s) && id in Table(s.roots)
    then
      var v := Table(s.roots)[id];
      && v in s.engine.protections
      && Table(t.roots) == Table(s.roots) - {id} && Releasing(t.roots) == Releasing(s.roots)
      && t == s.(roots := t.roots, engine := s.engine.(protections := s.engine.protections - multiset{v}))
    else t == s
  }

  lemma HeldIsProtected<V>(s: Jsc<V>, v: V)
    requires Balanced(s) && v in Held(s.roots)
    ensures v in s.engine.protections
  {
    OwedApart(s);
  }

  lemma ReleasesExactly<V>(s: Jsc<V>, id: RootId)
    requires Inv(s)
    ensures ReleaseEffect(s, id, DoRelease(s, id))
  {
    InsideMeansFrames(s);
    LooksUp(s.roots, id);
    Removes(s.roots, id);
    RemovesOne(s.roots, id);
    if id in Table(s.roots) {
      HeldIsProtected(s, Table(s.roots)[id]);
    }
  }

  /** A host function is installed if and only if that is asked for inside an entry of an active attachment, fewer
      functions are registered than allowed, and it is not one of them; it is then registered and
      protected, its publication under way. */
  ghost predicate InstallEffect<V>(s: Jsc<V>, f: V, t: Jsc<V>) {
    t == if Inside(s) && s.gate.state.Active? && |s.functions| < s.functionLimit && f !in s.functions
         then Pushed(s, Publishing(f)).(functions := s.functions + {f},
                                        engine := s.engine.(protections := s.engine.protections + multiset{f}))
         else s
  }

  lemma InstallsExactly<V>(s: Jsc<V>, f: V)
    requires Inv(s)
    ensures InstallEffect(s, f, DoInstall(s, f))
  {
    InsideMeansFrames(s);
  }

  predicate Unpublished<V(==)>(frames: seq<Frame<V>>, f: V) {
    exists k :: 0 <= k < |frames| && frames[k] == Publishing(f)
  }

  lemma {:induction false} RegisteredElsewhere<V>(frames: seq<Frame<V>>, functions: set<V>, f: V)
    requires Registered(frames, functions) && f !in functions
    ensures !Unpublished(frames, f)
    decreases |frames|
  {
    if frames != [] {
      var top, below := frames[|frames| - 1], frames[..|frames| - 1];
      RegisteredElsewhere(below, if top.Publishing? then functions - {top.callee} else functions, f);
      forall k | 0 <= k < |frames|
        ensures frames[k] != Publishing(f)
      {
        if k < |below| {
          assert below[k] != Publishing(f);
        }
      }
    }
  }

  lemma FunctionIsProtected<V>(s: Jsc<V>, f: V)
    requires Balanced(s) && f in s.functions
    ensures f in s.engine.protections
  {
    OwedApart(s);
    assert f in multiset(s.functions);
  }

  /** A publication that succeeds leaves its function registered and protected, no other publication of it under
      way; one that fails undoes exactly the registration and one protection. */
  ghost predicate PublishEffect<V>(s: Jsc<V>, published: bool, t: Jsc<V>) {
    if s.frames == [] || !Top(s).Publishing? then t == s
    else
      var f := Top(s).callee;
      && f in s.functions && f in s.engine.protections
      && (if published then t == Popped(s) && !Unpublished(t.frames, f)
          else t == Popped(s).(functions := s.functions - {f},
                               engine := s.engine.(protections := s.engine.protections - multiset{f})))
  }

  lemma PublishesExactly<V>(s: Jsc<V>, published: bool)
    requires Inv(s)
    ensures PublishEffect(s, published, DoPublish(s, published))
  {
    if s.frames != [] && Top(s).Publishing? {
      RegisteredElsewhere(Popped(s).frames, s.functions - {Top(s).callee}, Top(s).callee);
      UnpublishedIsUndone(s);
    }
  }

  /** A drain request stops an active attachment and changes nothing else. */
  ghost predicate RequestEffect<V>(s: Jsc<V>, t: Jsc<V>) {
    t == if s.gate.state.Active? then s.(gate := s.gate.(state := Draining)) else s
  }

  /** The effects of the steps; those that end the attachment have theorems of their own. */
  ghost predicate Effect<V>(s: Jsc<V>, step: Step<V>, t: Jsc<V>) {
    match step
    case Enter => EnterEffect(s, t)
    case OpenScope => OpenEffect(s, t)
    case CloseScope(unwinding) => CloseEffect(s, unwinding, t)
    case Begin(checked, strings) => BeginEffect(s, checked, strings, t)
    case Prepare(v) => PrepareEffect(s, v, t)
    case Finish(o, scope) => FinishEffect(s, o, scope, t)
    case Persist(checked, v) => PersistEffect(s, checked, v, t)
    case Resolve(id, managed, scope) => ResolveEffect(s, id, managed, scope, t)
    case Release(id) => ReleaseEffect(s, id, t)
    case Install(f) => InstallEffect(s, f, t)
    case Publish(published) => PublishEffect(s, published, t)
    case DrainRequest => RequestEffect(s, t)
    case _ => true
  }

  lemma StepHasItsEffect<V>(s: Jsc<V>, step: Step<V>)
    requires Inv(s)
    ensures Effect(s, step, Next(s, step))
  {
    match step
    case Enter => EntersExactly(s);
    case OpenScope => InsideMeansFrames(s);
    case CloseScope(unwinding) => ClosesExactly(s, unwinding);
    case Begin(checked, strings) => BeginsExactly(s, checked, strings);
    case Prepare(v) => PreparesExactly(s, v);
    case Finish(o, scope) => FinishesExactly(s, o, scope);
    case Persist(checked, v) => PersistsExactly(s, checked, v);
    case Resolve(id, managed, scope) => ResolvesExactly(s, id, managed, scope);
    case Release(id) => ReleasesExactly(s, id);
    case Install(f) => InstallsExactly(s, f);
    case Publish(published) => PublishesExactly(s, published);
    case DrainRequest =>
    case _ =>
  }

  /** On every run, within the limits the attachment was made with, each step has exactly its effect. */
  lemma {:induction false} EveryStepHasItsEffect<V>(limits: Limits, policy: FinalEntryPolicy, steps: seq<Step<V>>, step: Step<V>)
    ensures var s := RunFromNew(limits, policy, steps);
            && Within(s, limits) && Entries(s.frames) <= limits.entries && |s.functions| <= limits.functions
            && Effect(s, step, Next(s, step))
  {
    RunKeepsLimits(limits, policy, steps);
    EntriesWithin(limits, policy, steps);
    FunctionsWithin(limits, policy, steps);
    StepHasItsEffect(RunFromNew(limits, policy, steps), step);
  }

  ghost predicate Standing<V>(s: Jsc<V>, f: V) {
    f in s.functions && !Unpublished(s.frames, f)
  }

  lemma KeptFrames<V>(s: Jsc<V>, t: Jsc<V>, f: V)
    requires Standing(s, f) && f in t.functions && Follows(s, t)
    requires |t.frames| <= |s.frames| || (|t.frames| == |s.frames| + 1 && t.frames[|s.frames|] != Publishing(f))
    ensures Standing(t, f)
  {
    forall k | 0 <= k < |t.frames|
      ensures t.frames[k] != Publishing(f)
    {
      if k < |s.frames| {
        assert Grown(s.frames[k], t.frames[k]);
        assert s.frames[k] != Publishing(f);
      }
    }
  }

  lemma TeardownShape<V>(s: Jsc<V>, step: Step<V>)
    requires (step.DetachWithEntry? || step.DetachWithoutEntry? || step.DropAttachment?) && !TearsDown(s, step)
    ensures Next(s, step).functions == s.functions
  {
  }

  lemma GrowsByOne<V>(s: Jsc<V>, step: Step<V>, f: V)
    requires f in s.functions
    ensures var t := Next(s, step);
            |t.frames| <= |s.frames| || (|t.frames| == |s.frames| + 1 && t.frames[|s.frames|] != Publishing(f))
  {
    match step
    case Enter =>
    case OpenScope =>
    case CloseScope(_) =>
    case Begin(_, _) =>
    case Prepare(_) =>
    case Finish(_, _) =>
    case Resolve(_, _, _) =>
    case Install(_) =>
    case Publish(_) =>
    case _ => StepKeepsStack(s, step);
  }

  lemma FunctionStays<V>(s: Jsc<V>, step: Step<V>, f: V)
    requires Standing(s, f) && !TearsDown(s, step)
    ensures f in Next(s, step).functions
  {
    match step
    case Enter =>
    case CloseScope(_) =>
    case Install(_) =>
    case Publish(_) => assert s.frames != [] ==> s.frames[|s.frames| - 1] != Publishing(f);
    case DetachWithEntry => TeardownShape(s, step);
    case DetachWithoutEntry => TeardownShape(s, step);
    case DropAttachment => TeardownShape(s, step);
    case _ => OthersKeepFunctions(s, step);
  }

  ghost predicate Survives<V>(s: Jsc<V>, later: seq<Step<V>>)
    decreases |later|
  {
    later != [] ==>
      var before := later[..|later| - 1];
      Survives(s, before) && !TearsDown(Run(s, before), later[|later| - 1])
  }

  /** A published function stays registered and protected over every run that does not end the attachment. */
  lemma {:induction false} PublishedFunctionLasts<V>(s: Jsc<V>, later: seq<Step<V>>, f: V)
    requires Inv(s) && Standing(s, f) && Survives(s, later)
    ensures var t := Run(s, later); Standing(t, f) && f in t.engine.protections
    decreases |later|
  {
    RunKeepsInv(s, later);
    if later != [] {
      var before, step := later[..|later| - 1], later[|later| - 1];
      PublishedFunctionLasts(s, before, f);
      var t := Run(s, before);
      FunctionStays(t, step, f);
      StepFollows(t, step);
      GrowsByOne(t, step, f);
      KeptFrames(t, Next(t, step), f);
    }
    FunctionIsProtected(Run(s, later), f);
  }
}
