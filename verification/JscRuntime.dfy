/** The resources of one JavaScriptCore attachment: persistent roots, host functions, scoped and
  argument roots, the local-root budget, and the entry gate that orders them against teardown.

  The engine is known only by the protections it has been asked to hold, one per call of
  `JSValueProtect`. Whatever script or callbacks do is a choice of steps: any operation in
  progress can have further entries, scopes and operations nested inside it.
*/
module JscRuntime {
  import opened Wrappers
  import opened RootTable
  import R = RootRegistry
  import opened Entry

  /** `faulted` would be an unprotect without a matching protect. */
  datatype Engine<V(==)> = Engine(protections: multiset<V>, faulted: bool) {
    function Protect(v: V): Engine<V> {
      this.(protections := protections + multiset{v})
    }

    function Unprotect(values: multiset<V>): Engine<V> {
      if values <= protections then this.(protections := protections - values) else this.(faulted := true)
    }
  }

  /** `unbalanced` would be the panic "balanced local admission". */
  datatype Budget = Budget(used: nat, limit: nat, unbalanced: bool) {
    function ReserveMany(count: nat): (bool, Budget) {
      if count == 0 then (true, this)
      else if used + count > limit then (false, this)
      else (true, this.(used := used + count))
    }

    function ReleaseMany(count: nat): Budget {
      if used < count then this.(unbalanced := true) else this.(used := used - count)
    }
  }

  /** What the native stack holds, innermost frame last. */
  datatype Frame<V> =
    // an admitted entry with its context, or a backend scope inside one, and the local roots it owns
    | Scope(entry: bool, roots: seq<V>)
    // an engine operation with one reservation for its result and one for each string argument
    | Operation(strings: nat, arguments: seq<V>)
    // a host function registered and protected but not yet published
    | Publishing(callee: V)

  datatype Jsc<V(==)> = Jsc(
    roots: Roots<V>,
    functions: set<V>,
    functionLimit: nat,
    budget: Budget,
    gate: Gate,
    frames: seq<Frame<V>>,
    engine: Engine<V>,
    abandoned: multiset<V>)    // protections given up without engine entry; no operation reads it

  /** How an engine operation ends: with no value (a null, an exception, a failed conversion or an
    unwinding panic), with a value that needs no root, or with one that does. */
  datatype Outcome<V> = NoValue | Plain | Managed(value: V)

  datatype Step<V> =
    | Enter
    | OpenScope
    | CloseScope(unwinding: bool)
    | Begin(checked: bool, strings: nat)
    | Prepare(argument: V)
    | Finish(outcome: Outcome<V>, scope: nat)
    | Persist(checked: bool, value: V)
    | Resolve(id: RootId, managed: bool, scope: nat)
    | Release(id: RootId)
    | DropLease(id: RootId)
    | Install(callee: V)
    | Publish(published: bool)
    | DrainRequest
    | DetachWithEntry
    | DetachWithoutEntry
    | DropAttachment

  datatype Report = Report(
    finalEntry: FinalEntryOutcome,
    settledRoots: nat,
    settledFunctions: nat,
    unresolvedRoots: nat,
    unresolvedFunctions: nat)

  function FrameValues<V>(f: Frame<V>): seq<V> {
    match f
    case Scope(_, roots) => roots
    case Operation(_, arguments) => arguments
    case Publishing(_) => []
  }

  function FrameHolds<V>(f: Frame<V>): nat {
    match f
    case Scope(_, roots) => |roots|
    case Operation(strings, _) => 1 + strings
    case Publishing(_) => 0
  }

  /** The values the frames protect. */
  function Rooted<V>(frames: seq<Frame<V>>): multiset<V> {
    if frames == [] then multiset{}
    else Rooted(frames[..|frames| - 1]) + multiset(FrameValues(frames[|frames| - 1]))
  }

  /** Reservations outstanding and local roots held. */
  function Admitted<V>(frames: seq<Frame<V>>): nat {
    if frames == [] then 0
    else Admitted(frames[..|frames| - 1]) + FrameHolds(frames[|frames| - 1])
  }

  function Entries<V>(frames: seq<Frame<V>>): nat {
    if frames == [] then 0
    else
      var top := frames[|frames| - 1];
      Entries(frames[..|frames| - 1]) + if top.Scope? && top.entry then 1 else 0
  }

  /** `drain_root_releases`: takes pending values one by one and unprotects each. */
  ghost function DrainReleases<V>(l: Roots<V>, e: Engine<V>): (Roots<V>, Engine<V>)
    decreases Pending(l)
  {
    Takes(l);
    var given := Reply(l, R.DoTake).given;
    if given == [] then (l, e) else DrainReleases(Apply(l, R.DoTake), e.Unprotect(multiset(given)))
  }

  /** Roots a value in an open scope, which takes over the reservation made for it. */
  ghost function Root<V>(s: Jsc<V>, v: V, scope: nat): Jsc<V>
    requires scope < |s.frames| && s.frames[scope].Scope?
  {
    var f := s.frames[scope];
    s.(frames := s.frames[scope := f.(roots := f.roots + [v])], engine := s.engine.Protect(v))
  }

  ghost predicate ScopeAt<V>(s: Jsc<V>, scope: nat) {
    scope < |s.frames| && s.frames[scope].Scope?
  }

  function Top<V>(s: Jsc<V>): Frame<V>
    requires s.frames != []
  {
    s.frames[|s.frames| - 1]
  }

  function Popped<V>(s: Jsc<V>): Jsc<V>
    requires s.frames != []
  {
    s.(frames := s.frames[..|s.frames| - 1])
  }

  function Pushed<V>(s: Jsc<V>, f: Frame<V>): Jsc<V> {
    s.(frames := s.frames + [f])
  }

  ghost function DoDrainReleases<V>(s: Jsc<V>): Jsc<V>
  {
    var (l, e) := DrainReleases(s.roots, s.engine);
    s.(roots := l, engine := e)
  }

  ghost function DoEnter<V>(s: Jsc<V>): Jsc<V>
  {
    var (r, g) := s.gate.TryEnter();
    if r.Err? then s else Pushed(DoDrainReleases(s.(gate := g)), Scope(true, []))
  }

  /** Local roots are released before the entry is. A panic skips the second drain of releases. */
  ghost function DoCloseScope<V>(s: Jsc<V>, unwinding: bool): Jsc<V>
  {
    if s.frames == [] || !Top(s).Scope? || (Top(s).entry && s.gate.entries == 0) then s
    else
      var roots := Top(s).roots;
      var t := Popped(s).(engine := s.engine.Unprotect(multiset(roots)), budget := s.budget.ReleaseMany(|roots|));
      if !Top(s).entry then t
      else (if unwinding then t else DoDrainReleases(t)).(gate := s.gate.Exit())
  }

  ghost function DoBegin<V>(s: Jsc<V>, checked: bool, strings: nat): Jsc<V> {
    if s.frames == [] || (checked && !s.gate.state.Active?) then s
    else
      var (first, b) := s.budget.ReserveMany(1);
      if !first then s
      else
        var (rest, c) := b.ReserveMany(strings);
        if !rest then s.(budget := b.ReleaseMany(1))
        else Pushed(s.(budget := c), Operation(strings, []))
  }

  ghost function DoPrepare<V>(s: Jsc<V>, v: V): Jsc<V> {
    if s.frames == [] || !Top(s).Operation? || |Top(s).arguments| >= Top(s).strings then s
    else Pushed(Popped(s).(engine := s.engine.Protect(v)), Top(s).(arguments := Top(s).arguments + [v]))
  }

  ghost function DoFinish<V>(s: Jsc<V>, o: Outcome<V>, scope: nat): Jsc<V> {
    if s.frames == [] || !Top(s).Operation? || (o.Managed? && !ScopeAt(s, scope)) then s
    else
      var t :=
        if o.Managed? then Popped(Root(s, o.value, scope))
        else Popped(s).(budget := s.budget.ReleaseMany(1));
      t.(engine := t.engine.Unprotect(multiset(Top(s).arguments)), budget := t.budget.ReleaseMany(Top(s).strings))
  }

  ghost function DoPersist<V>(s: Jsc<V>, checked: bool, v: V): Jsc<V>
  {
    if s.frames == [] || (checked && !s.gate.state.Active?) then s
    else
      if Reply(s.roots, R.DoInsert(v)).bound.None? then s
      else s.(roots := Apply(s.roots, R.DoInsert(v)), engine := s.engine.Protect(v))
  }

  ghost function DoResolve<V>(s: Jsc<V>, id: RootId, managed: bool, scope: nat): Jsc<V> {
    if !ScopeAt(s, scope) then s
    else match Lookup(s.roots, id)
      case None => s
      case Some(v) =>
        var (ok, b) := s.budget.ReserveMany(1);
        if !ok then s
        else if managed then Root(s.(budget := b), v, scope)
        else s.(budget := b.ReleaseMany(1))
  }

  ghost function DoRelease<V>(s: Jsc<V>, id: RootId): Jsc<V>
  {
    if s.frames == [] then s
    else
      var given := Reply(s.roots, R.DoRemove(id)).given;
      if given == [] then s
      else s.(roots := Apply(s.roots, R.DoRemove(id)), engine := s.engine.Unprotect(multiset(given)))
  }

  ghost function DoDropLease<V>(s: Jsc<V>, id: RootId): Jsc<V>
  {
    if s.gate.state.Active? then s.(roots := Apply(s.roots, R.DoRelease(id))) else s
  }

  /** The engine does not reuse the address of a function that is still protected. */
  ghost function DoInstall<V>(s: Jsc<V>, f: V): Jsc<V> {
    if s.frames == [] || !s.gate.state.Active? || |s.functions| >= s.functionLimit || f in s.functions then s
    else Pushed(s.(functions := s.functions + {f}, engine := s.engine.Protect(f)), Publishing(f))
  }

  ghost function DoPublish<V>(s: Jsc<V>, published: bool): Jsc<V> {
    if s.frames == [] || !Top(s).Publishing? then s
    else
      var f := Top(s).callee;
      if published then Popped(s)
      else Popped(s).(functions := s.functions - {f}, engine := s.engine.Unprotect(multiset{f}))
  }

  /** `release_engine_resources`: everything the attachment owns is unprotected. */
  ghost function ReleaseEngineResources<V>(s: Jsc<V>): Jsc<V>
  {
    var values := Reply(s.roots, R.DoDrain).given;
    s.(roots := Apply(s.roots, R.DoDrain), functions := {},
       engine := s.engine.Unprotect(multiset(values) + multiset(s.functions)))
  }

  /** `abandon_engine_resources`: the registries are emptied and the engine is not told. */
  ghost function AbandonEngineResources<V>(s: Jsc<V>): Jsc<V>
  {
    var values := Reply(s.roots, R.DoDrain).given;
    s.(roots := Apply(s.roots, R.DoDrain), functions := {},
       abandoned := s.abandoned + multiset(values) + multiset(s.functions))
  }

  function EmptyReport(g: Gate): Report {
    Report(if g.finalEntry.Some? then g.finalEntry.value else Unavailable, 0, 0, 0, 0)
  }

  /** `detach_with_context`, and with it the teardown of an owned runtime. */
  ghost function DoDetachWithEntry<V>(s: Jsc<V>): (Result<Report, GateError>, Jsc<V>)
  {
    if s.gate.state.Destroyed? then (Ok(EmptyReport(s.gate)), s)
    else
      var (begun, g) := s.gate.RequestDrain().TryBeginCleanup();
      if begun.Err? then (Err(begun.error), s.(gate := g))
      else
        var t := ReleaseEngineResources(s);
        var (finished, h) := g.EndCleanup(true).TryFinish();
        if finished.Err? then (Err(finished.error), t.(gate := h))
        else
          var (marked, d) := h.MarkDestroyed();
          if marked.Err? then (Err(marked.error), t.(gate := d))
          else
            (Ok(Report(finished.value, |Reply(s.roots, R.DoDrain).given|, |s.functions|, 0, 0)), t.(gate := d))
  }

  ghost function DoDetachWithoutEntry<V>(s: Jsc<V>): (Result<Report, GateError>, Jsc<V>)
  {
    if s.gate.state.Destroyed? then (Ok(EmptyReport(s.gate)), s)
    else
      var (finished, g) := s.gate.RequestDrain().TryFinish();
      if finished.Err? then (Err(finished.error), s.(gate := g))
      else
        var t := AbandonEngineResources(s);
        var (marked, d) := g.MarkDestroyed();
        if marked.Err? then (Err(marked.error), t.(gate := d))
        else (Ok(Report(finished.value, 0, 0, |Reply(s.roots, R.DoDrain).given|, |s.functions|)), t.(gate := d))
  }

  /** The owner cannot be dropped while it is borrowed by an entry. */
  ghost function DoDropAttachment<V>(s: Jsc<V>): Jsc<V>
  {
    if s.frames != [] || s.gate.state.Destroyed? then s
    else
      var (finished, g) := s.gate.RequestDrain().TryFinish();
      AbandonEngineResources(s).(gate := if finished.Ok? then g.MarkDestroyed().1 else g)
  }

  ghost function Next<V>(s: Jsc<V>, step: Step<V>): Jsc<V>
  {
    match step
    case Enter => DoEnter(s)
    case OpenScope => if s.frames != [] && s.gate.state.Active? then Pushed(s, Scope(false, [])) else s
    case CloseScope(unwinding) => DoCloseScope(s, unwinding)
    case Begin(checked, strings) => DoBegin(s, checked, strings)
    case Prepare(v) => DoPrepare(s, v)
    case Finish(o, scope) => DoFinish(s, o, scope)
    case Persist(checked, v) => DoPersist(s, checked, v)
    case Resolve(id, managed, scope) => DoResolve(s, id, managed, scope)
    case Release(id) => DoRelease(s, id)
    case DropLease(id) => DoDropLease(s, id)
    case Install(f) => DoInstall(s, f)
    case Publish(published) => DoPublish(s, published)
    case DrainRequest => s.(gate := s.gate.RequestDrain())
    case DetachWithEntry => DoDetachWithEntry(s).1
    case DetachWithoutEntry => DoDetachWithoutEntry(s).1
    case DropAttachment => DoDropAttachment(s)
  }

  datatype Limits = Limits(roots: nat, locals: nat, functions: nat, entries: nat)

  ghost function NewJsc<V>(limits: Limits, policy: FinalEntryPolicy): Jsc<V> {
    Jsc(NewRoots(limits.roots), {}, limits.functions, Budget(0, limits.locals, false),
        NewGate(limits.entries, policy), [], Engine(multiset{}, false), multiset{})
  }
}
