/** Entry frames of one thread, the active pair they maintain, and the runtimes whose destruction
  had to wait for the outermost frame to end.

  The stack holds what is in progress on the thread. User code may run whenever the top frame is an
  entry, or a teardown at one of its two calls into user destructors; what it does there is a choice
  of further steps on top.
*/
module EntryFrames {
  import opened Wrappers
  import opened Entry

  type Id = nat

  /** An engine context, with the group the engine reports for it; a null group is possible. */
  datatype Context = Context(handle: nat, group: Option<nat>)

  /** The runtime and context installed for the thread. */
  datatype Pair = Pair(runtime: Id, context: Context)

  /** Where a teardown calls out: while dropping callbacks under the cleanup guard, and while dropping
    native states after invalidation. */
  datatype Phase = Callbacks | Natives

  datatype Frame =
    | EntryFrame(pair: Pair, previous: Option<Pair>)
    | Teardown(runtime: Id, phase: Phase)
    | DeferredDrain

  /** The native stack, innermost frame on top. */
  datatype Stack = Bottom | On(top: Frame, below: Stack)

  datatype Owner =
    | Held                    // an owned runtime
    | Dropped                 // an owned runtime whose destructor has run
    | HostOwned               // an attachment, whose context the host destroys

  datatype Runtime = Runtime(gate: Gate, owner: Owner, context: Context, group: nat)

  datatype Thread = Thread(
    active: Option<Pair>,
    frames: Stack,
    deferred: seq<Id>,
    runtimes: map<Id, Runtime>,
    everDeferred: set<Id>,      // history
    destroyed: seq<Id>)         // history, in order

  datatype Step =
    | Create(id: Id, owned: bool, context: Context, group: nat)
    | Enter(id: Id, context: Context)
    | Exit
    | DrainNext
    | Resume
    | Invalidate(id: Id)
    | DropRuntime(id: Id)

  const ENTRY_LIMIT: nat := 64

  /** The pair of the topmost entry. */
  function ActivePair(frames: Stack): Option<Pair> {
    if frames.Bottom? then None
    else if frames.top.EntryFrame? then Some(frames.top.pair)
    else ActivePair(frames.below)
  }

  function EntriesOf(frames: Stack, id: Id): nat {
    if frames.Bottom? then 0
    else EntriesOf(frames.below, id) + if frames.top.EntryFrame? && frames.top.pair.runtime == id then 1 else 0
  }

  /** The teardowns of a runtime in progress, innermost first. */
  function TeardownsOf(frames: Stack, id: Id): seq<Phase> {
    if frames.Bottom? then []
    else if frames.top.Teardown? && frames.top.runtime == id then [frames.top.phase] + TeardownsOf(frames.below, id)
    else TeardownsOf(frames.below, id)
  }

  predicate DrainingIn(frames: Stack) {
    frames.On? && (frames.top.DeferredDrain? || DrainingIn(frames.below))
  }

  predicate Compatible(t: Thread, pair: Pair) {
    t.active == None || t.active == Some(pair)
  }

  /** `context_group_is_independent_from_active_entry`. */
  predicate Independent(t: Thread, id: Id)
    requires id in t.runtimes
  {
    && t.active.Some?
    && t.active.value.context.group.Some?
    && t.active.value.context.group.value != t.runtimes[id].group
  }

  /** User code, or the thread itself, may act here. */
  predicate Idle(t: Thread) {
    t.frames.Bottom? || !t.frames.top.DeferredDrain?
  }

  function WithGate(t: Thread, id: Id, g: Gate): (u: Thread)
    requires id in t.runtimes
    ensures u.runtimes.Keys == t.runtimes.Keys
  {
    t.(runtimes := t.runtimes[id := t.runtimes[id].(gate := g)])
  }

  /** The start of `destroy_owned_runtime`, up to the first call into user code. */
  function BeginTeardown(t: Thread, id: Id): Thread
    requires id in t.runtimes
  {
    var (r, g) := t.runtimes[id].gate.RequestDrain().TryBeginCleanup();
    var u := WithGate(t, id, g);
    if r.Ok? then u.(frames := On(Teardown(id, Callbacks), u.frames)) else u
  }

  /** The rest of a teardown, one user window at a time. */
  function ResumeTeardown(t: Thread): Thread
    requires t.frames.On? && t.frames.top.Teardown? && t.frames.top.runtime in t.runtimes
  {
    var id := t.frames.top.runtime;
    var gate := t.runtimes[id].gate;
    match t.frames.top.phase
    case Callbacks =>
      var (r, g) := gate.EndCleanup(true).TryFinish();
      WithGate(t, id, g).(frames := if r.Ok? then On(Teardown(id, Natives), t.frames.below) else t.frames.below)
    case Natives =>
      var (r, g) := gate.MarkDestroyed();
      WithGate(t, id, g).(frames := t.frames.below, destroyed := if r.Ok? then t.destroyed + [id] else t.destroyed)
  }

  function DoEnter(t: Thread, id: Id, context: Context): Thread
    requires id in t.runtimes
  {
    var pair := Pair(id, context);
    var (r, g) := t.runtimes[id].gate.TryEnter();
    if t.runtimes[id].owner.Dropped? || !Compatible(t, pair) || r.Err? then t
    else WithGate(t, id, g).(active := Some(pair), frames := On(EntryFrame(pair, t.active), t.frames))
  }

  /** The pair is restored first, then admission is released, then deferred drops run if this was the
    outermost frame. */
  function DoExit(t: Thread): Thread
    requires t.frames.On? && t.frames.top.EntryFrame? && t.frames.top.pair.runtime in t.runtimes
  {
    var id := t.frames.top.pair.runtime;
    if t.runtimes[id].gate.entries == 0 then t
    else
      WithGate(t, id, t.runtimes[id].gate.Exit()).(
        active := t.frames.top.previous,
        frames := if t.frames.top.previous.None? then On(DeferredDrain, t.frames.below) else t.frames.below)
  }

  function DoDrainNext(t: Thread): Thread
    requires t.frames.On? && t.frames.top.DeferredDrain?
  {
    var n := |t.deferred|;
    if n == 0 then t.(frames := t.frames.below)
    else
      var u := t.(deferred := t.deferred[..n - 1]);
      if t.deferred[n - 1] in t.runtimes then BeginTeardown(u, t.deferred[n - 1]) else u
  }

  /** Safe code cannot call a method on an owned runtime, or drop it, while one of its calls is on the
    stack. */
  predicate Borrowed(t: Thread, id: Id) {
    EntriesOf(t.frames, id) > 0 || TeardownsOf(t.frames, id) != []
  }

  predicate Admissible(t: Thread, id: Id)
    requires id in t.runtimes
  {
    Compatible(t, Pair(id, t.runtimes[id].context)) || Independent(t, id)
  }

  function WithoutOwner(t: Thread, id: Id): (u: Thread)
    requires id in t.runtimes
    ensures u.runtimes.Keys == t.runtimes.Keys
  {
    t.(runtimes := t.runtimes[id := t.runtimes[id].(owner := Dropped)])
  }

  /** Invalidation on behalf of the owner, or of its destructor when `dropping`. */
  function DoInvalidate(t: Thread, id: Id, dropping: bool): Thread
    requires id in t.runtimes
  {
    if !t.runtimes[id].owner.Held? || Borrowed(t, id) then t
    else
      var u := if dropping then WithoutOwner(t, id) else t;
      if t.runtimes[id].gate.state.Destroyed? then u
      else if Admissible(t, id) then BeginTeardown(u, id)
      else if dropping then u.(deferred := t.deferred + [id], everDeferred := t.everDeferred + {id})
      else u
  }

  function Next(t: Thread, s: Step): Thread {
    match s
    case Create(id, owned, context, group) =>
      if id in t.runtimes || !Idle(t) || (owned && context.group != Some(group)) then t
      else
        t.(runtimes := t.runtimes[id := Runtime(NewGate(ENTRY_LIMIT, Guaranteed), if owned then Held else HostOwned, context, group)])
    case Enter(id, context) => if id in t.runtimes && Idle(t) then DoEnter(t, id, context) else t
    case Exit => if t.frames.On? && t.frames.top.EntryFrame? && t.frames.top.pair.runtime in t.runtimes then DoExit(t) else t
    case DrainNext => if t.frames.On? && t.frames.top.DeferredDrain? then DoDrainNext(t) else t
    case Resume => if t.frames.On? && t.frames.top.Teardown? && t.frames.top.runtime in t.runtimes then ResumeTeardown(t) else t
    case Invalidate(id) => if id in t.runtimes && Idle(t) then DoInvalidate(t, id, false) else t
    case DropRuntime(id) => if id in t.runtimes && Idle(t) then DoInvalidate(t, id, true) else t
  }

  const START := Thread(None, Bottom, [], map[], {}, [])

  function Run(steps: seq<Step>): Thread
    decreases |steps|
  {
    if steps == [] then START else Next(Run(steps[..|steps| - 1]), steps[|steps| - 1])
  }
}
