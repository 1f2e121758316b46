/** Operations and publications with script in the middle: whatever is nested inside them, each frame
  answers for what it took itself.
*/
module JscNesting {
  import opened RootTable
  import opened Entry
  import opened JscRuntime
  import opened JscBalance
  import Bags

  /** The frame is the same one, with more roots or more arguments. */
  ghost predicate Grown<V>(before: Frame<V>, after: Frame<V>) {
    match before
    case Scope(entry, roots) => after.Scope? && after.entry == entry && roots <= after.roots
    case Operation(strings, arguments) => after.Operation? && after.strings == strings && arguments <= after.arguments
    case Publishing(_) => after == before
  }

  lemma GrownTwice<V>(a: Frame<V>, b: Frame<V>, c: Frame<V>)
    requires Grown(a, b) && Grown(b, c)
    ensures Grown(a, c)
  {
  }

  lemma StepKeepsStack<V>(s: Jsc<V>, step: Step<V>)
    requires step.Persist? || step.Release? || step.DropLease? || step.DrainRequest?
          || step.DetachWithEntry? || step.DetachWithoutEntry? || step.DropAttachment?
    ensures Next(s, step).frames == s.frames && Next(s, step).budget == s.budget
  {
    match step
    case DetachWithEntry => WithEntryShape(s);
    case DetachWithoutEntry => WithoutEntryShape(s);
    case _ =>
  }

  /** Every frame that is still there afterwards is the same one, and so is the limit. */
  ghost predicate Follows<V>(s: Jsc<V>, t: Jsc<V>) {
    && t.budget.limit == s.budget.limit
    && (forall k :: 0 <= k < |s.frames| && k < |t.frames| ==> Grown(s.frames[k], t.frames[k]))
  }

  lemma EnterFollows<V>(s: Jsc<V>)
    ensures Follows(s, DoEnter(s))
  {
  }

  lemma CloseScopeFollows<V>(s: Jsc<V>, unwinding: bool)
    ensures Follows(s, DoCloseScope(s, unwinding))
  {
    var t := DoCloseScope(s, unwinding);
    if t != s {
      assert t.frames == Popped(s).frames;
    }
  }

  lemma BeginFollows<V>(s: Jsc<V>, checked: bool, strings: nat)
    ensures Follows(s, DoBegin(s, checked, strings))
  {
  }

  lemma PrepareFollows<V>(s: Jsc<V>, v: V)
    ensures Follows(s, DoPrepare(s, v))
  {
  }

  lemma FinishFollows<V>(s: Jsc<V>, o: Outcome<V>, scope: nat)
    ensures Follows(s, DoFinish(s, o, scope))
  {
  }

  lemma ResolveFollows<V>(s: Jsc<V>, id: RootId, managed: bool, scope: nat)
    ensures Follows(s, DoResolve(s, id, managed, scope))
  {
  }

  lemma InstallFollows<V>(s: Jsc<V>, f: V)
    ensures Follows(s, DoInstall(s, f))
  {
  }

  lemma PublishFollows<V>(s: Jsc<V>, published: bool)
    ensures Follows(s, DoPublish(s, published))
  {
  }

  /** No step replaces a frame by another: those that survive it are the same ones. */
  lemma StepFollows<V>(s: Jsc<V>, step: Step<V>)
    ensures Follows(s, Next(s, step))
  {
    match step
    case Enter => EnterFollows(s);
    case OpenScope =>
    case CloseScope(unwinding) => CloseScopeFollows(s, unwinding);
    case Begin(checked, strings) => BeginFollows(s, checked, strings);
    case Prepare(v) => PrepareFollows(s, v);
    case Finish(o, scope) => FinishFollows(s, o, scope);
    case Resolve(id, managed, scope) => ResolveFollows(s, id, managed, scope);
    case Install(f) => InstallFollows(s, f);
    case Publish(published) => PublishFollows(s, published);
    case _ => StepKeepsStack(s, step);
  }

  /** The frame at depth `k` is on the stack during the whole run. */
  ghost predicate StaysOpen<V>(s: Jsc<V>, steps: seq<Step<V>>, k: nat)
    decreases |steps|
  {
    && k < |Run(s, steps).frames|
    && (steps != [] ==> StaysOpen(s, steps[..|steps| - 1], k))
  }

  lemma {:induction false} RunGrowsFrames<V>(s: Jsc<V>, steps: seq<Step<V>>, k: nat)
    requires k < |s.frames| && StaysOpen(s, steps, k)
    ensures Grown(s.frames[k], Run(s, steps).frames[k])
    decreases |steps|
  {
    if steps != [] {
      var before := steps[..|steps| - 1];
      RunGrowsFrames(s, before, k);
      StepFollows(Run(s, before), steps[|steps| - 1]);
      GrownTwice(s.frames[k], Run(s, before).frames[k], Run(s, steps).frames[k]);
    }
  }

  lemma {:induction false} LimitIsFixed<V>(s: Jsc<V>, steps: seq<Step<V>>)
    ensures Run(s, steps).budget.limit == s.budget.limit
    decreases |steps|
  {
    if steps != [] {
      LimitIsFixed(s, steps[..|steps| - 1]);
      StepFollows(Run(s, steps[..|steps| - 1]), steps[|steps| - 1]);
    }
  }

  /** What the operation on top has reserved and protected is there to be given back. */
  lemma TopOperationIsCovered<V>(s: Jsc<V>)
    requires Inv(s) && s.frames != [] && Top(s).Operation?
    ensures 1 + Top(s).strings <= s.budget.used
    ensures multiset(Top(s).arguments) <= s.engine.protections
  {
    OwedApart(s);
  }

  lemma FinishGivesBack<V>(s: Jsc<V>, o: Outcome<V>, scope: nat)
    requires Inv(s) && s.frames != [] && Top(s).Operation? && !o.Managed?
    ensures DoFinish(s, o, scope)
         == Popped(s).(budget := s.budget.(used := s.budget.used - 1 - Top(s).strings),
                       engine := s.engine.(protections := s.engine.protections - multiset(Top(s).arguments)))
    ensures 1 + Top(s).strings <= s.budget.used && multiset(Top(s).arguments) <= s.engine.protections
  {
    TopOperationIsCovered(s);
  }

  /** The frame on top of `s` is on top again at the end of the run, never having been popped. */
  ghost predicate ComesBack<V>(s: Jsc<V>, nested: seq<Step<V>>) {
    && s.frames != [] && StaysOpen(s, nested, |s.frames| - 1)
    && |Run(s, nested).frames| == |s.frames|
  }

  lemma {:induction false} SameTop<V>(s: Jsc<V>, nested: seq<Step<V>>)
    requires Inv(s) && ComesBack(s, nested)
    ensures var u := Run(s, nested);
            Inv(u) && u.frames != [] && Grown(Top(s), Top(u)) && u.budget.limit == s.budget.limit
  {
    RunKeepsInv(s, nested);
    RunGrowsFrames(s, nested, |s.frames| - 1);
    LimitIsFixed(s, nested);
  }

  lemma BegunIsSound<V>(s: Jsc<V>, checked: bool, strings: nat)
    requires Inv(s) && DoBegin(s, checked, strings) == Begun(s, strings)
    ensures var t := Begun(s, strings);
            Inv(t) && t.frames != [] && Top(t) == Operation(strings, []) && t.budget.limit == s.budget.limit
  {
    BeginBalances(s, checked, strings);
    BeginKeepsFrames(s, checked, strings);
    BeginKeepsBudget(s, checked, strings);
  }

  lemma SameStackSameBudget<V>(s: Jsc<V>, t: Jsc<V>)
    requires Budgeted(s) && Budgeted(t) && s.budget.limit == t.budget.limit && s.frames == t.frames
    ensures s.budget == t.budget
  {
  }

  /** Once admitted, whatever is nested in it, an operation that ends without a value to root is still
      the frame that was admitted. It gives back exactly the reservations that frame made and the
      arguments it protected, and changes nothing else. Unless a scope below has gained or lost roots,
      the budget is what it was before the operation. */
  lemma {:induction false} FailedOperationIsRefunded<V>(s: Jsc<V>, checked: bool, strings: nat, nested: seq<Step<V>>, o: Outcome<V>, scope: nat)
    requires Inv(s) && DoBegin(s, checked, strings) == Begun(s, strings) && !o.Managed?
    requires ComesBack(Begun(s, strings), nested)
    ensures var u := Run(Begun(s, strings), nested);
            var t := DoFinish(u, o, scope);
            && u.frames != [] && Top(u).Operation? && Top(u).strings == strings
            && 1 + strings <= u.budget.used && multiset(Top(u).arguments) <= u.engine.protections
            && t == Popped(u).(budget := u.budget.(used := u.budget.used - 1 - strings),
                               engine := u.engine.(protections := u.engine.protections - multiset(Top(u).arguments)))
            && (t.frames == s.frames ==> t.budget == s.budget)
  {
    BegunIsSound(s, checked, strings);
    SameTop(Begun(s, strings), nested);
    var u := Run(Begun(s, strings), nested);
    FinishGivesBack(u, o, scope);
    FinishKeepsFrames(u, o, scope);
    if DoFinish(u, o, scope).frames == s.frames {
      SameStackSameBudget(s, DoFinish(u, o, scope));
    }
  }

  lemma InstalledIsSound<V>(s: Jsc<V>, f: V)
    requires Inv(s) && DoInstall(s, f) != s
    ensures var t := DoInstall(s, f); Inv(t) && t.frames != [] && Top(t) == Publishing(f)
  {
    InstallBalances(s, f);
    InstallKeepsFrames(s, f);
  }

  lemma UnpublishedIsUndone<V>(s: Jsc<V>)
    requires Inv(s) && s.frames != [] && Top(s).Publishing?
    ensures var f := Top(s).callee;
            && f in s.functions && f in s.engine.protections
            && DoPublish(s, false)
               == Popped(s).(functions := s.functions - {f},
                             engine := s.engine.(protections := s.engine.protections - multiset{f}))
  {
    OwedApart(s);
    assert Top(s).callee in multiset(s.functions);
  }

  /** Once installed, whatever its publication runs, a host function that is not published is still
      registered and protected; exactly that registration and one protection of it are undone. */
  lemma {:induction false} FailedPublicationRollsBack<V>(s: Jsc<V>, f: V, nested: seq<Step<V>>)
    requires Inv(s) && DoInstall(s, f) != s
    requires ComesBack(DoInstall(s, f), nested)
    ensures var u := Run(DoInstall(s, f), nested);
            && u.frames != [] && f in u.functions && f in u.engine.protections
            && DoPublish(u, false)
               == Popped(u).(functions := u.functions - {f},
                             engine := u.engine.(protections := u.engine.protections - multiset{f}))
  {
    InstalledIsSound(s, f);
    SameTop(DoInstall(s, f), nested);
    UnpublishedIsUndone(Run(DoInstall(s, f), nested));
  }

  /** A publication that fails before anything else happens is the inverse of the installation. */
  lemma UndisturbedPublicationIsUndone<V>(s: Jsc<V>, f: V)
    requires DoInstall(s, f) != s
    ensures DoPublish(DoInstall(s, f), false) == s
  {
    var t := DoInstall(s, f);
    assert t.frames[..|s.frames|] == s.frames;
    assert s.functions + {f} - {f} == s.functions;
    assert s.engine.protections + multiset{f} - multiset{f} == s.engine.protections;
  }

  /** A group of `strings` arguments, prepared one after another. */
  ghost function Prepared<V>(s: Jsc<V>, arguments: seq<V>): Jsc<V> {
    if arguments == [] then s else DoPrepare(Prepared(s, arguments[..|arguments| - 1]), arguments[|arguments| - 1])
  }

  /** The state in which an operation on top of `below` has prepared some arguments. */
  ghost function WithArguments<V>(s: Jsc<V>, below: seq<Frame<V>>, strings: nat, arguments: seq<V>): Jsc<V> {
    s.(frames := below + [Operation(strings, arguments)],
       engine := s.engine.(protections := s.engine.protections + multiset(arguments)))
  }

  lemma OneMoreArgument<V>(s: Jsc<V>, below: seq<Frame<V>>, strings: nat, arguments: seq<V>, v: V)
    requires |arguments| < strings
    ensures DoPrepare(WithArguments(s, below, strings, arguments), v) == WithArguments(s, below, strings, arguments + [v])
  {
    var t := WithArguments(s, below, strings, arguments);
    assert t.frames[..|below|] == below;
    Bags.Append(s.engine.protections, arguments, v);
  }

  lemma {:induction false} PreparedSpec<V>(s: Jsc<V>, below: seq<Frame<V>>, strings: nat, arguments: seq<V>)
    requires s.frames == below + [Operation(strings, [])] && |arguments| <= strings
    ensures Prepared(s, arguments) == WithArguments(s, below, strings, arguments)
  {
    if arguments == [] {
      Bags.Nothing(s.engine.protections, arguments);
    } else {
      var n := |arguments| - 1;
      assert arguments == arguments[..n] + [arguments[n]];
      PreparedSpec(s, below, strings, arguments[..n]);
      OneMoreArgument(s, below, strings, arguments[..n], arguments[n]);
    }
  }

  /** An operation that prepares its arguments, nothing nested in it, and ends without a value to root is
      undone wherever in them it stopped. */
  lemma {:induction false} UndisturbedOperationIsUndone<V>(s: Jsc<V>, checked: bool, strings: nat, arguments: seq<V>, o: Outcome<V>, scope: nat)
    requires DoBegin(s, checked, strings) == Begun(s, strings) && |arguments| <= strings && !o.Managed?
    ensures DoFinish(Prepared(Begun(s, strings), arguments), o, scope) == s
  {
    PreparedFromBegun(s, strings, arguments);
    EndsAsItBegan(s, strings, arguments, o, scope);
  }

  /** The state in which an operation has been admitted. */
  ghost function Begun<V>(s: Jsc<V>, strings: nat): Jsc<V> {
    Pushed(s.(budget := s.budget.(used := s.budget.used + 1 + strings)), Operation(strings, []))
  }

  /** The state in which it has prepared some arguments. */
  ghost function Underway<V>(s: Jsc<V>, strings: nat, arguments: seq<V>): Jsc<V> {
    s.(budget := s.budget.(used := s.budget.used + 1 + strings),
       frames := s.frames + [Operation(strings, arguments)],
       engine := s.engine.(protections := s.engine.protections + multiset(arguments)))
  }

  lemma {:induction false} PreparedFromBegun<V>(s: Jsc<V>, strings: nat, arguments: seq<V>)
    requires |arguments| <= strings
    ensures Prepared(Begun(s, strings), arguments) == Underway(s, strings, arguments)
  {
    PreparedSpec(Begun(s, strings), s.frames, strings, arguments);
  }

  lemma EndsAsItBegan<V>(s: Jsc<V>, strings: nat, arguments: seq<V>, o: Outcome<V>, scope: nat)
    requires !o.Managed?
    ensures DoFinish(Underway(s, strings, arguments), o, scope) == s
  {
    var t := Underway(s, strings, arguments);
    assert Top(t) == Operation(strings, arguments);
    assert Popped(t) == t.(frames := s.frames) by {
      assert t.frames[..|s.frames|] == s.frames;
    }
    assert t.engine.Unprotect(multiset(arguments)) == s.engine by {
      assert s.engine.protections + multiset(arguments) - multiset(arguments) == s.engine.protections;
    }
    assert t.budget.ReleaseMany(1).ReleaseMany(strings) == s.budget;
  }
}
