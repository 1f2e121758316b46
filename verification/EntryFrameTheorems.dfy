/** What holds on every run of the entry frames of a thread. */
module EntryFrameTheorems {
  import opened Wrappers
  import opened Entry
  import opened EntryFrames

  predicate NoRepeat(s: seq<Id>) {
    s != [] ==> s[|s| - 1] !in s[..|s| - 1] && NoRepeat(s[..|s| - 1])
  }

  /** Each entry frame remembers the pair below it, and a nested entry is into the same pair. */
  predicate Chained(frames: Stack) {
    frames.On? ==>
      && Chained(frames.below)
      && (frames.top.EntryFrame? ==>
            && frames.top.previous == ActivePair(frames.below)
            && (frames.top.previous.Some? ==> frames.top.pair == frames.top.previous.value))
  }

  /** A runtime at rest is active or destroyed; one in teardown is where its teardown is. */
  predicate Resting(g: Gate, phases: seq<Phase>) {
    if phases == [] then !g.cleanup && (if g.state.Active? then g.finalEntry.None? else g.state.Destroyed? && g.entries == 0)
    else
      && |phases| == 1
      && g.entries == 0
      && (if phases[0].Callbacks? then g.state.Draining? && g.cleanup && g.finalEntry.None? else g.state.Invalid? && !g.cleanup)
  }

  ghost predicate RuntimeOk(t: Thread, id: Id)
    requires id in t.runtimes
  {
    var r := t.runtimes[id];
    && r.gate.entries == EntriesOf(t.frames, id)
    && r.gate.limit == ENTRY_LIMIT && r.gate.policy.Guaranteed?
    && Resting(r.gate, TeardownsOf(t.frames, id))
    && (id in t.deferred ==> r.gate.state.Active? && r.gate.entries == 0 && TeardownsOf(t.frames, id) == [] && r.owner.Dropped?)
    && (r.owner.Dropped? ==> id in t.deferred || TeardownsOf(t.frames, id) != [] || r.gate.state.Destroyed?)
    && (id in t.destroyed <==> r.gate.state.Destroyed?)
  }

  predicate AllKnown(frames: Stack, ids: set<Id>) {
    frames.On? ==>
      && AllKnown(frames.below, ids)
      && match frames.top
         case EntryFrame(pair, _) => pair.runtime in ids
         case Teardown(id, _) => id in ids
         case DeferredDrain => true
  }

  ghost predicate Inv(t: Thread) {
    && ThreadOk(t)
    && (forall id :: id in t.runtimes ==> RuntimeOk(t, id))
  }

  ghost predicate ThreadOk(t: Thread) {
    && t.active == ActivePair(t.frames)
    && Chained(t.frames)
    && AllKnown(t.frames, t.runtimes.Keys)
    && (t.deferred != [] ==> t.active.Some? || DrainingIn(t.frames))
    && NoRepeat(t.deferred) && NoRepeat(t.destroyed)
    && (forall id :: id in t.deferred || id in t.destroyed ==> id in t.runtimes)
    && (forall id :: id in t.everDeferred ==> id in t.runtimes && t.runtimes[id].owner.Dropped?)
  }

  lemma {:induction false} NoRepeatPush(s: seq<Id>, id: Id)
    requires NoRepeat(s) && id !in s
    ensures NoRepeat(s + [id])
  {
    assert (s + [id])[..|s|] == s;
  }

  lemma {:induction false} UnknownIsAbsent(frames: Stack, ids: set<Id>, id: Id)
    requires AllKnown(frames, ids) && id !in ids
    ensures EntriesOf(frames, id) == 0 && TeardownsOf(frames, id) == []
    ensures AllKnown(frames, ids + {id})
  {
    if frames.On? {
      UnknownIsAbsent(frames.below, ids, id);
    }
  }

  lemma CreateKeeps(t: Thread, id: Id, owned: bool, context: Context, group: nat)
    requires Inv(t)
    ensures Inv(Next(t, Create(id, owned, context, group)))
  {
    var u := Next(t, Create(id, owned, context, group));
    if u != t {
      UnknownIsAbsent(t.frames, t.runtimes.Keys, id);
      assert u.runtimes.Keys == t.runtimes.Keys + {id};
      forall j | j in u.runtimes
        ensures RuntimeOk(u, j)
      {
        assert j != id ==> RuntimeOk(t, j);
      }
    }
  }

  lemma EnterKeeps(t: Thread, id: Id, context: Context)
    requires Inv(t) && id in t.runtimes
    ensures Inv(DoEnter(t, id, context))
  {
    var u := DoEnter(t, id, context);
    if u != t {
      assert RuntimeOk(t, id);
      forall j | j in u.runtimes
        ensures RuntimeOk(u, j)
      {
        assert RuntimeOk(t, j);
      }
    }
  }

  lemma ExitKeepsThread(t: Thread)
    requires Inv(t) && t.frames.On? && t.frames.top.EntryFrame? && t.frames.top.pair.runtime in t.runtimes
    ensures ThreadOk(DoExit(t))
  {
  }

  lemma ExitKeepsRuntimes(t: Thread)
    requires Inv(t) && t.frames.On? && t.frames.top.EntryFrame? && t.frames.top.pair.runtime in t.runtimes
    ensures forall j :: j in t.runtimes ==> RuntimeOk(DoExit(t), j)
  {
    var u := DoExit(t);
    forall j | j in u.runtimes
      ensures RuntimeOk(u, j)
    {
      assert RuntimeOk(t, j);
    }
  }

  /** The runtime is at rest and its teardown is about to begin. */
  ghost predicate Ready(t: Thread, id: Id) {
    && id in t.runtimes
    && var g := t.runtimes[id].gate;
    && g.state.Active? && g.entries == 0 && !g.cleanup && g.finalEntry.None?
    && g.limit == ENTRY_LIMIT && g.policy.Guaranteed?
    && !Borrowed(t, id)
    && id !in t.deferred && id !in t.destroyed
  }

  /** Teardown of a runtime at rest always gets past the gate. */
  lemma BeginTeardownKeeps(t: Thread, id: Id)
    requires ThreadOk(t) && Ready(t, id)
    requires forall j :: j in t.runtimes && j != id ==> RuntimeOk(t, j)
    ensures Inv(BeginTeardown(t, id))
    ensures BeginTeardown(t, id).frames == On(Teardown(id, Callbacks), t.frames)
  {
    var u := BeginTeardown(t, id);
    forall j | j in u.runtimes
      ensures RuntimeOk(u, j)
    {
      assert j != id ==> RuntimeOk(t, j);
    }
  }

  lemma DrainNextKeeps(t: Thread)
    requires Inv(t) && t.frames.On? && t.frames.top.DeferredDrain?
    ensures Inv(DoDrainNext(t))
    ensures t.deferred != [] ==> DoDrainNext(t).frames == On(Teardown(t.deferred[|t.deferred| - 1], Callbacks), t.frames)
  {
    if t.deferred == [] {
      var u := DoDrainNext(t);
      forall j | j in u.runtimes
        ensures RuntimeOk(u, j)
      {
        assert RuntimeOk(t, j);
      }
    } else {
      var n := |t.deferred| - 1;
      var id := t.deferred[n];
      var u := t.(deferred := t.deferred[..n]);
      assert t.deferred == u.deferred + [id];
      assert RuntimeOk(t, id);
      forall j | j in u.runtimes && j != id
        ensures RuntimeOk(u, j)
      {
        assert RuntimeOk(t, j);
      }
      BeginTeardownKeeps(u, id);
    }
  }

  ghost function Deferred(t: Thread, id: Id): Thread
    requires id in t.runtimes
  {
    WithoutOwner(t, id).(deferred := t.deferred + [id], everDeferred := t.everDeferred + {id})
  }

  lemma DeferKeeps(t: Thread, id: Id)
    requires Inv(t) && id in t.runtimes && t.runtimes[id].owner.Held? && !Borrowed(t, id)
    requires !t.runtimes[id].gate.state.Destroyed? && t.active.Some?
    ensures ThreadOk(Deferred(t, id))
    ensures forall j :: j in t.runtimes ==> RuntimeOk(Deferred(t, id), j)
  {
    var u := Deferred(t, id);
    assert RuntimeOk(t, id);
    NoRepeatPush(t.deferred, id);
    forall j | j in t.runtimes
      ensures RuntimeOk(u, j)
    {
      assert RuntimeOk(t, j);
    }
  }

  lemma InvalidateKeeps(t: Thread, id: Id, dropping: bool)
    requires Inv(t) && id in t.runtimes
    ensures Inv(DoInvalidate(t, id, dropping))
  {
    if t.runtimes[id].owner.Held? && !Borrowed(t, id) {
      assert RuntimeOk(t, id);
      var u := if dropping then WithoutOwner(t, id) else t;
      forall j | j in u.runtimes && j != id
        ensures RuntimeOk(u, j)
      {
        assert RuntimeOk(t, j);
      }
      if t.runtimes[id].gate.state.Destroyed? {
        assert RuntimeOk(u, id);
      } else if Admissible(t, id) {
        BeginTeardownKeeps(u, id);
      } else if dropping {
        DeferKeeps(t, id);
      }
    }
  }

  lemma ResumeCallbacks(t: Thread)
    requires Inv(t) && t.frames.On? && t.frames.top.Teardown? && t.frames.top.runtime in t.runtimes && t.frames.top.phase.Callbacks?
    ensures Inv(ResumeTeardown(t))
    ensures ResumeTeardown(t) == t.(frames := On(Teardown(t.frames.top.runtime, Natives), t.frames.below), runtimes := ResumeTeardown(t).runtimes)
  {
    var u := ResumeTeardown(t);
    var id := t.frames.top.runtime;
    assert RuntimeOk(t, id);
    forall j | j in u.runtimes
      ensures RuntimeOk(u, j)
    {
      assert RuntimeOk(t, j);
    }
  }

  lemma NativesRuntime(t: Thread, j: Id)
    requires Inv(t) && t.frames.On? && t.frames.top.Teardown? && t.frames.top.runtime in t.runtimes && t.frames.top.phase.Natives?
    requires j in t.runtimes
    ensures RuntimeOk(ResumeTeardown(t), j)
    ensures ResumeTeardown(t).destroyed == t.destroyed + [t.frames.top.runtime] && t.frames.top.runtime !in t.destroyed
  {
    var id := t.frames.top.runtime;
    assert RuntimeOk(t, id);
    assert RuntimeOk(t, j);
    assert j in t.destroyed + [id] <==> j in t.destroyed || j == id;
  }

  lemma ResumeNatives(t: Thread)
    requires Inv(t) && t.frames.On? && t.frames.top.Teardown? && t.frames.top.runtime in t.runtimes && t.frames.top.phase.Natives?
    ensures Inv(ResumeTeardown(t))
    ensures ResumeTeardown(t)
         == t.(frames := t.frames.below, runtimes := ResumeTeardown(t).runtimes, destroyed := t.destroyed + [t.frames.top.runtime])
  {
    var u := ResumeTeardown(t);
    var id := t.frames.top.runtime;
    NativesRuntime(t, id);
    NoRepeatPush(t.destroyed, id);
    forall j | j in u.runtimes
      ensures RuntimeOk(u, j)
    {
      NativesRuntime(t, j);
    }
  }

  lemma ResumeKeeps(t: Thread)
    requires Inv(t) && t.frames.On? && t.frames.top.Teardown? && t.frames.top.runtime in t.runtimes
    ensures Inv(ResumeTeardown(t))
  {
    if t.frames.top.phase.Callbacks? {
      ResumeCallbacks(t);
    } else {
      ResumeNatives(t);
    }
  }

  lemma {:induction false} RunKeepsInv(steps: seq<Step>)
    ensures Inv(Run(steps))
    decreases |steps|
  {
    if steps != [] {
      var t := Run(steps[..|steps| - 1]);
      RunKeepsInv(steps[..|steps| - 1]);
      StepKeepsInv(t, steps[|steps| - 1]);
    }
  }

  lemma StepKeepsInv(t: Thread, s: Step)
    requires Inv(t)
    ensures Inv(Next(t, s))
  {
    match s
    case Create(id, owned, context, group) => CreateKeeps(t, id, owned, context, group);
    case Enter(id, context) => if id in t.runtimes { EnterKeeps(t, id, context); }
    case Exit => if t.frames.On? && t.frames.top.EntryFrame? && t.frames.top.pair.runtime in t.runtimes { ExitKeepsThread(t); ExitKeepsRuntimes(t); }
    case DrainNext => if t.frames.On? && t.frames.top.DeferredDrain? { DrainNextKeeps(t); }
    case Resume => if t.frames.On? && t.frames.top.Teardown? && t.frames.top.runtime in t.runtimes { ResumeKeeps(t); }
    case Invalidate(id) => if id in t.runtimes { InvalidateKeeps(t, id, false); }
    case DropRuntime(id) => if id in t.runtimes { InvalidateKeeps(t, id, true); }
  }

  /** The installed pair is that of the innermost live entry. */
  lemma {:induction false} ActiveIsInnermost(steps: seq<Step>)
    ensures Run(steps).active == ActivePair(Run(steps).frames)
  {
    RunKeepsInv(steps);
  }

  predicate Contains(frames: Stack, f: Frame) {
    frames.On? && (frames.top == f || Contains(frames.below, f))
  }

  lemma {:induction false} OnePair(frames: Stack, f: Frame)
    requires Chained(frames) && Contains(frames, f) && f.EntryFrame?
    ensures ActivePair(frames) == Some(f.pair)
  {
    if frames.top != f {
      OnePair(frames.below, f);
    }
  }

  /** All live entries of a thread are entries of one runtime through one context. */
  lemma {:induction false} LiveEntriesShareOnePair(steps: seq<Step>, f: Frame)
    requires Contains(Run(steps).frames, f) && f.EntryFrame?
    ensures Run(steps).active == Some(f.pair)
  {
    RunKeepsInv(steps);
    OnePair(Run(steps).frames, f);
  }

  /** A runtime waits for destruction only while an entry is live or a drain of the queue is running;
      it is untouched until then. */
  lemma {:induction false} DeferredWaits(steps: seq<Step>)
    ensures var t := Run(steps);
            t.deferred != [] ==> t.active.Some? || DrainingIn(t.frames)
    ensures forall id :: id in Run(steps).deferred ==>
              && id in Run(steps).runtimes
              && Run(steps).runtimes[id].gate == NewGate(ENTRY_LIMIT, Guaranteed)
  {
    RunKeepsInv(steps);
    forall id | id in Run(steps).deferred
      ensures id in Run(steps).runtimes && Run(steps).runtimes[id].gate == NewGate(ENTRY_LIMIT, Guaranteed)
    {
      assert RuntimeOk(Run(steps), id);
    }
  }

  /** Once nothing is in progress, every runtime whose destructor ran, deferred or not, has been
      destroyed, exactly once. */
  lemma {:induction false} QuietThreadOwesNothing(steps: seq<Step>)
    requires Run(steps).frames.Bottom?
    ensures var t := Run(steps);
            && t.active == None && t.deferred == []
            && NoRepeat(t.destroyed)
            && (forall id :: id in t.runtimes ==>
                  (id in t.destroyed <==> t.runtimes[id].gate.state.Destroyed?)
                  && (t.runtimes[id].owner.Dropped? ==> id in t.destroyed))
            && (forall id :: id in t.everDeferred ==> id in t.destroyed)
  {
    RunKeepsInv(steps);
    var t := Run(steps);
    forall id | id in t.runtimes
      ensures id in t.destroyed <==> t.runtimes[id].gate.state.Destroyed?
      ensures t.runtimes[id].owner.Dropped? ==> id in t.destroyed
    {
      assert RuntimeOk(t, id);
    }
  }

  /** The runtime can be torn down under this entered pair: there is none, it is the runtime's own, or the engine
      reports a group for it that is known to be another. */
  predicate FreeOf(active: Option<Pair>, id: Id, r: Runtime) {
    match active
    case None => true
    case Some(pair) =>
      || pair == Pair(id, r.context)
      || (pair.context.group.Some? && pair.context.group.value != r.group)
  }

  /** Dropping an owned runtime that still needs its teardown waits exactly when another pair is
      entered whose engine group is not known to be another; otherwise the teardown starts at once. */
  lemma {:induction false} DropDefersExactly(steps: seq<Step>, id: Id)
    requires var t := Run(steps);
             && id in t.runtimes && t.runtimes[id].owner.Held? && !Borrowed(t, id)
             && Idle(t) && !t.runtimes[id].gate.state.Destroyed?
    ensures var t, u := Run(steps), Next(Run(steps), DropRuntime(id));
            if !FreeOf(t.active, id, t.runtimes[id])
            then u.deferred == t.deferred + [id] && u.frames == t.frames && u.runtimes[id].gate == t.runtimes[id].gate
            else u.deferred == t.deferred && u.frames == On(Teardown(id, Callbacks), t.frames)
  {
    RunKeepsInv(steps);
    var t := Run(steps);
    assert RuntimeOk(t, id);
  }

  lemma {:induction false} OneMore(steps: seq<Step>, s: Step)
    ensures Run(steps + [s]) == Next(Run(steps), s)
  {
    assert (steps + [s])[..|steps|] == steps;
  }

  /** The teardown of the runtime deferred last, run without interference. */
  const ROUND := [DrainNext, Resume, Resume]

  lemma RoundOf(t: Thread)
    requires Inv(t) && t.frames.On? && t.frames.top.DeferredDrain? && t.deferred != []
    ensures var u := Next(Next(Next(t, DrainNext), Resume), Resume);
            var n := |t.deferred| - 1;
            && u.frames == t.frames
            && u.deferred == t.deferred[..n]
            && u.destroyed == t.destroyed + [t.deferred[n]]
  {
    DrainNextKeeps(t);
    var begun := Next(t, DrainNext);
    assert t.deferred[|t.deferred| - 1] in t.runtimes;
    ResumeCallbacks(begun);
    ResumeNatives(Next(begun, Resume));
  }

  lemma {:induction false} RoundDestroysOne(steps: seq<Step>)
    requires var t := Run(steps); t.frames.On? && t.frames.top.DeferredDrain? && t.deferred != []
    ensures var t, u := Run(steps), Run(steps + ROUND);
            var n := |t.deferred| - 1;
            && u.frames == t.frames
            && u.deferred == t.deferred[..n]
            && u.destroyed == t.destroyed + [t.deferred[n]]
  {
    RunKeepsInv(steps);
    RoundOf(Run(steps));
    OneMore(steps, DrainNext);
    OneMore(steps + [DrainNext], Resume);
    OneMore(steps + [DrainNext] + [Resume], Resume);
    assert steps + [DrainNext] + [Resume] + [Resume] == steps + ROUND;
  }

  /** What the drain of `n` deferred runtimes does. */
  function DrainSteps(n: nat): seq<Step> {
    if n == 0 then [DrainNext] else ROUND + DrainSteps(n - 1)
  }

  function Reversed(s: seq<Id>): seq<Id> {
    if s == [] then [] else [s[|s| - 1]] + Reversed(s[..|s| - 1])
  }

  lemma OneRoundFirst(steps: seq<Step>, n: nat)
    ensures steps + DrainSteps(n + 1) == steps + ROUND + DrainSteps(n)
  {
    assert DrainSteps(n + 1) == ROUND + DrainSteps(n);
  }

  lemma Associate(a: seq<Id>, b: seq<Id>, c: seq<Id>)
    ensures (a + b) + c == a + (b + c)
  {
  }

  lemma {:induction false} LastFirst(before: seq<Id>, s: seq<Id>)
    requires s != []
    ensures before + [s[|s| - 1]] + Reversed(s[..|s| - 1]) == before + Reversed(s)
  {
    Associate(before, [s[|s| - 1]], Reversed(s[..|s| - 1]));
  }

  lemma {:induction false} QueueDrains(steps: seq<Step>)
    requires Run(steps).frames.On? && Run(steps).frames.top.DeferredDrain?
    ensures var t := Run(steps);
            var u := Run(steps + DrainSteps(|t.deferred|));
            u.deferred == [] && u.frames == t.frames.below && u.destroyed == t.destroyed + Reversed(t.deferred)
    decreases |Run(steps).deferred|
  {
    var t := Run(steps);
    if t.deferred == [] {
      OneMore(steps, DrainNext);
    } else {
      var n := |t.deferred| - 1;
      RoundDestroysOne(steps);
      QueueDrains(steps + ROUND);
      OneRoundFirst(steps, n);
      LastFirst(t.destroyed, t.deferred);
    }
  }

  /** When the outermost entry ends, the drain can run: left undisturbed it destroys the queued runtimes,
      the one dropped last first, and leaves the thread as it was below the entry. */
  lemma {:induction false} UndisturbedDrainEmpties(steps: seq<Step>)
    requires var f := Run(steps).frames; f.On? && f.top.EntryFrame? && f.top.previous.None?
    ensures var t := Run(steps);
            var u := Run(steps + [Exit] + DrainSteps(|t.deferred|));
            && u.deferred == [] && u.frames == t.frames.below
            && u.destroyed == t.destroyed + Reversed(t.deferred)
  {
    RunKeepsInv(steps);
    var t := Run(steps);
    assert RuntimeOk(t, t.frames.top.pair.runtime);
    OneMore(steps, Exit);
    QueueDrains(steps + [Exit]);
  }

  function From(t: Thread, steps: seq<Step>): Thread
    decreases |steps|
  {
    if steps == [] then t else Next(From(t, steps[..|steps| - 1]), steps[|steps| - 1])
  }

  /** The frames of `base` are on the stack, with nothing or something on top of them. */
  predicate Above(frames: Stack, base: Stack) {
    frames == base || (frames.On? && Above(frames.below, base))
  }

  /** A step cannot reach below a running drain, except for the drain's own last step, which it takes once
      the queue is empty. */
  lemma {:induction false} StepStaysAbove(t: Thread, s: Step, base: Stack)
    requires base.On? && base.top.DeferredDrain? && Above(t.frames, base)
    ensures var u := Next(t, s);
            Above(u.frames, base) || (t.frames == base && t.deferred == [] && u == t.(frames := base.below))
  {
  }

  /** A runtime whose destructor has run stays dropped. */
  lemma StepKeepsDropped(t: Thread, s: Step, id: Id)
    requires id in t.runtimes && t.runtimes[id].owner.Dropped?
    ensures var u := Next(t, s); id in u.runtimes && u.runtimes[id].owner.Dropped?
  {
  }

  lemma {:induction false} FromKeeps(t: Thread, steps: seq<Step>)
    requires Inv(t)
    ensures var u := From(t, steps);
            Inv(u) && forall id :: id in t.runtimes && t.runtimes[id].owner.Dropped? ==> id in u.runtimes && u.runtimes[id].owner.Dropped?
    decreases |steps|
  {
    if steps != [] {
      var u := From(t, steps[..|steps| - 1]);
      var s := steps[|steps| - 1];
      FromKeeps(t, steps[..|steps| - 1]);
      StepKeepsInv(u, s);
      forall id | id in u.runtimes && u.runtimes[id].owner.Dropped?
        ensures id in Next(u, s).runtimes && Next(u, s).runtimes[id].owner.Dropped?
      {
        StepKeepsDropped(u, s, id);
      }
    }
  }

  /** Whatever destructors do while the outermost exit drains the queue, entries, drops and drains of their
      own included, the drain ends only with the queue empty, and then every runtime that was waiting
      at the exit has been destroyed; one deferred since is destroyed or still in a teardown below. */
  lemma {:induction false} OutermostExitDrains(steps: seq<Step>, later: seq<Step>, last: Step)
    requires var f := Run(steps).frames; f.On? && f.top.EntryFrame? && f.top.previous.None?
    requires var exited := Next(Run(steps), Exit);
             && Above(From(exited, later).frames, exited.frames)
             && !Above(Next(From(exited, later), last).frames, exited.frames)
    ensures var t := Run(steps);
            var u := Next(From(Next(t, Exit), later), last);
            && u.frames == t.frames.below && u.deferred == []
            && (forall id :: id in t.deferred ==> id in u.destroyed)
            && (forall id :: id in u.everDeferred ==> id in u.destroyed || TeardownsOf(u.frames, id) != [])
  {
    RunKeepsInv(steps);
    var t := Run(steps);
    assert RuntimeOk(t, t.frames.top.pair.runtime);
    var exited := Next(t, Exit);
    StepKeepsInv(t, Exit);
    assert exited.frames == On(DeferredDrain, t.frames.below);
    FromKeeps(exited, later);
    var w := From(exited, later);
    StepStaysAbove(w, last, exited.frames);
    StepKeepsInv(w, last);
    var u := Next(w, last);
    forall id | id in t.deferred
      ensures id in u.destroyed
    {
      assert RuntimeOk(t, id);
      assert exited.runtimes[id].owner.Dropped?;
      assert RuntimeOk(u, id);
    }
    forall id | id in u.everDeferred
      ensures id in u.destroyed || TeardownsOf(u.frames, id) != []
    {
      assert RuntimeOk(u, id);
    }
  }

  /** An entry is made if and only if the runtime's owner is not being dropped, no other pair is entered, it has
      neither been torn down nor is it being, and its live entries are below the limit. Its pair is then
      installed on top, and a refused entry changes nothing. */
  lemma EntersExactly(steps: seq<Step>, id: Id, context: Context)
    requires var t := Run(steps); id in t.runtimes && Idle(t)
    ensures var t, u := Run(steps), Next(Run(steps), Enter(id, context));
            var pair := Pair(id, context);
            if && !t.runtimes[id].owner.Dropped? && (t.active.None? || t.active == Some(pair))
               && TeardownsOf(t.frames, id) == [] && id !in t.destroyed && EntriesOf(t.frames, id) < ENTRY_LIMIT
            then
              && u.frames == On(EntryFrame(pair, t.active), t.frames) && u.active == Some(pair)
              && u.runtimes == t.runtimes[id := t.runtimes[id].(gate := u.runtimes[id].gate)]
              && u.deferred == t.deferred && u.destroyed == t.destroyed
            else u == t
  {
    RunKeepsInv(steps);
    assert RuntimeOk(Run(steps), id);
  }

  /** Leaving an entry restores the pair below it and gives back its place; only the outermost one starts the drain
      of deferred teardowns. */
  lemma ExitsExactly(steps: seq<Step>)
    requires var f := Run(steps).frames; f.On? && f.top.EntryFrame?
    ensures var t, u := Run(steps), Next(Run(steps), Exit);
            var id := t.frames.top.pair.runtime;
            && u.active == ActivePair(t.frames.below)
            && u.frames == (if ActivePair(t.frames.below).None? then On(DeferredDrain, t.frames.below) else t.frames.below)
            && EntriesOf(u.frames, id) + 1 == EntriesOf(t.frames, id)
            && u.deferred == t.deferred && u.destroyed == t.destroyed
  {
    RunKeepsInv(steps);
    var t := Run(steps);
    assert RuntimeOk(t, t.frames.top.pair.runtime);
  }

  /** An owner that tears its runtime down without dropping it succeeds in starting if and only if the runtime
      stands and its pair is the entered one, none is, or the entered one is known to be of another
      group. Otherwise it is refused and nothing changes: only a drop can be deferred. */
  lemma InvalidatesExactly(steps: seq<Step>, id: Id)
    requires var t := Run(steps); id in t.runtimes && Idle(t) && t.runtimes[id].owner.Held? && !Borrowed(t, id)
    ensures var t, u := Run(steps), Next(Run(steps), Invalidate(id));
            if id !in t.destroyed && FreeOf(t.active, id, t.runtimes[id])
            then u.frames == On(Teardown(id, Callbacks), t.frames) && u.deferred == t.deferred && u.active == t.active
            else u == t
  {
    RunKeepsInv(steps);
    assert RuntimeOk(Run(steps), id);
  }

  /** A teardown calls out twice, first to drop callbacks, then native states, and the runtime is destroyed when the
      second call returns, not before. */
  lemma TeardownGoesOn(steps: seq<Step>)
    requires var f := Run(steps).frames; f.On? && f.top.Teardown?
    ensures var t, u := Run(steps), Next(Run(steps), Resume);
            var id := t.frames.top.runtime;
            && id in t.runtimes && id !in t.destroyed
            && (if t.frames.top.phase.Callbacks?
                then u.frames == On(Teardown(id, Natives), t.frames.below) && u.destroyed == t.destroyed
                else u.frames == t.frames.below && u.destroyed == t.destroyed + [id])
            && u.active == t.active && u.deferred == t.deferred
  {
    RunKeepsInv(steps);
    var t := Run(steps);
    assert RuntimeOk(t, t.frames.top.runtime);
    if t.frames.top.phase.Callbacks? {
      ResumeCallbacks(t);
    } else {
      ResumeNatives(t);
    }
  }

  /** No teardown stands on an entry into an engine group that may be its own. */
  ghost predicate Apart(frames: Stack, runtimes: map<Id, Runtime>) {
    frames.On? ==>
      && Apart(frames.below, runtimes)
      && match frames.top
         case EntryFrame(_, _) => true
         case Teardown(id, _) => id in runtimes && FreeOf(ActivePair(frames.below), id, runtimes[id])
         case DeferredDrain => ActivePair(frames.below).None?
  }

  /** Runtimes are only added; their contexts and groups stay. */
  ghost predicate Extends(before: map<Id, Runtime>, after: map<Id, Runtime>) {
    forall id :: id in before ==> id in after && after[id].context == before[id].context && after[id].group == before[id].group
  }

  lemma {:induction false} ApartLasts(frames: Stack, before: map<Id, Runtime>, after: map<Id, Runtime>)
    requires Apart(frames, before) && Extends(before, after)
    ensures Apart(frames, after)
  {
    if frames.On? {
      ApartLasts(frames.below, before, after);
      if frames.top.Teardown? {
        FreeOfSame(ActivePair(frames.below), frames.top.runtime, before[frames.top.runtime], after[frames.top.runtime]);
      }
    }
  }

  lemma FreeOfSame(active: Option<Pair>, id: Id, r: Runtime, q: Runtime)
    requires FreeOf(active, id, r) && r.context == q.context && r.group == q.group
    ensures FreeOf(active, id, q)
  {
  }

  lemma StepExtends(t: Thread, s: Step)
    ensures Extends(t.runtimes, Next(t, s).runtimes)
  {
  }

  /** What a step leaves on top of the frames it keeps. */
  lemma StepStacks(t: Thread, s: Step)
    requires Inv(t)
    ensures var f, u := t.frames, Next(t, s);
            || u.frames == f
            || (f.On? && u.frames == f.below)
            || (u.frames.On? && u.frames.below == f && (u.frames.top.EntryFrame?
                 || (u.frames.top.Teardown? && u.frames.top.runtime in t.runtimes
                     && (FreeOf(t.active, u.frames.top.runtime, t.runtimes[u.frames.top.runtime]) || (f.On? && f.top.DeferredDrain?)))))
            || (f.On? && f.top.Teardown? && u.frames == On(Teardown(f.top.runtime, Natives), f.below))
            || (f.On? && f.top.EntryFrame? && u.frames == On(DeferredDrain, f.below) && ActivePair(f.below).None?)
  {
    match s
    case Invalidate(id) => if id in t.runtimes { assert RuntimeOk(t, id); }
    case DropRuntime(id) => if id in t.runtimes { assert RuntimeOk(t, id); }
    case _ =>
  }

  lemma StepKeepsApart(t: Thread, s: Step)
    requires Inv(t) && Apart(t.frames, t.runtimes)
    ensures var u := Next(t, s); Apart(u.frames, u.runtimes)
  {
    var u := Next(t, s);
    StepExtends(t, s);
    StepStacks(t, s);
    ApartLasts(t.frames, t.runtimes, u.runtimes);
    if t.frames.On? {
      ApartLasts(t.frames.below, t.runtimes, u.runtimes);
    }
    if u.frames.On? && u.frames.top.Teardown? && u.frames.below == t.frames {
      var id := u.frames.top.runtime;
      if t.frames.On? && t.frames.top.DeferredDrain? {
        assert ActivePair(t.frames).None?;
      } else {
        FreeOfSame(t.active, id, t.runtimes[id], u.runtimes[id]);
      }
    }
  }

  /** On every run, however teardowns, entries and drains nest, no runtime is torn down inside an entry into another
      pair unless the engine reports another group for it; deferred teardowns run outside every entry. */
  lemma {:induction false} TeardownsStayApart(steps: seq<Step>)
    ensures Apart(Run(steps).frames, Run(steps).runtimes)
    decreases |steps|
  {
    if steps != [] {
      RunKeepsInv(steps[..|steps| - 1]);
      TeardownsStayApart(steps[..|steps| - 1]);
      StepKeepsApart(Run(steps[..|steps| - 1]), steps[|steps| - 1]);
    }
  }

  /** The runtimes the thread owns are of the group the engine reports for their contexts. */
  ghost predicate OwnGroups(t: Thread) {
    forall id :: id in t.runtimes && !t.runtimes[id].owner.HostOwned? ==> t.runtimes[id].context.group == Some(t.runtimes[id].group)
  }

  lemma StepKeepsOwnGroups(t: Thread, s: Step)
    requires OwnGroups(t)
    ensures OwnGroups(Next(t, s))
  {
  }

  lemma {:induction false} OwnersKnowTheirGroups(steps: seq<Step>)
    ensures OwnGroups(Run(steps))
    decreases |steps|
  {
    if steps != [] {
      OwnersKnowTheirGroups(steps[..|steps| - 1]);
      StepKeepsOwnGroups(Run(steps[..|steps| - 1]), steps[|steps| - 1]);
    }
  }

  /** A runtime is created if and only if its name is free and, when the thread is to own it, the engine reports its
      group for its context. It stands, entered by no one, and nothing else has changed. */
  lemma {:induction false} CreatesExactly(steps: seq<Step>, id: Id, owned: bool, context: Context, group: nat)
    requires Idle(Run(steps))
    ensures var t, u := Run(steps), Next(Run(steps), Create(id, owned, context, group));
            && OwnGroups(t)
            && (if id !in t.runtimes && (owned ==> context.group == Some(group))
                then u == t.(runtimes := u.runtimes) && u.runtimes == t.runtimes[id := u.runtimes[id]]
                     && u.runtimes[id].gate.state.Active? && u.runtimes[id].owner == (if owned then Held else HostOwned)
                     && u.runtimes[id].context == context && u.runtimes[id].group == group
                     && EntriesOf(u.frames, id) == 0 && TeardownsOf(u.frames, id) == []
                else u == t)
  {
    OwnersKnowTheirGroups(steps);
    RunKeepsInv(steps);
    var t := Run(steps);
    if id !in t.runtimes {
      UnknownIsAbsent(t.frames, t.runtimes.Keys, id);
    }
  }
}
