/** The repository's deterministic lifecycle reference and the trace it emits. */
module Lifecycle {
  import opened Words
  import opened Wrappers
  import opened Entry

  /** An entry of this attachment; the reference rejects one that names another. */
  datatype Token<A> = Token(attachment: A, sequence: nat)

  datatype Event =
    | Entered(sequence: nat)
    | Exited(sequence: nat)
    | DrainRequested
    | DrainReady
    | Invalidated
    | DestroyedEvent

  datatype LifecycleError =
    | NotActive(state: HostState)
    | WrongRuntime
    | StaleEntry
    | EntrySpaceExhausted
    | EntriesRemain(count: nat)
    | InvalidTransition(state: HostState, operation: Operation)

  /** `position` of the sequence among the live entries, or the length. */
  function Position(live: seq<nat>, x: nat): (i: nat)
    ensures i <= |live|
    ensures i < |live| ==> live[i] == x
    ensures i == |live| <==> x !in live
    decreases |live|
  {
    if live == [] then 0
    else if live[0] == x then 0
    else 1 + Position(live[1..], x)
  }

  /** `Vec::swap_remove`. */
  function SwapRemove(live: seq<nat>, i: nat): seq<nat>
    requires i < |live|
  {
    var last := |live| - 1;
    live[i := live[last]][..last]
  }

  /** `active_entries` reports at most `u32::MAX`. */
  function Reported(n: nat): nat {
    if n <= U32_MAX then n else U32_MAX
  }

  datatype Model<A(==)> = Model(
    attachment: A,
    state: HostState,
    nextEntry: nat,
    live: seq<nat>,
    events: seq<Event>)
  {
    function Enter(): (Result<Token<A>, LifecycleError>, Model<A>) {
      if !state.Active? then (Err(LifecycleError.NotActive(state)), this)
      else if nextEntry >= U64_MAX then (Err(EntrySpaceExhausted), this)
      else
        (Ok(Token(attachment, nextEntry)),
         this.(nextEntry := nextEntry + 1, live := live + [nextEntry], events := events + [Entered(nextEntry)]))
    }

    function Exit(t: Token<A>): (Result<(), LifecycleError>, Model<A>) {
      if t.attachment != attachment then (Err(WrongRuntime), this)
      else
        var i := Position(live, t.sequence);
        if i == |live| then (Err(StaleEntry), this)
        else
          var rest := SwapRemove(live, i);
          (Ok(()),
           this.(live := rest,
                 events := events + [Exited(t.sequence)] + if state.Draining? && rest == [] then [DrainReady] else []))
    }

    function RequestInvalidate(): Model<A> {
      if state.Active? then
        this.(state := Draining, events := events + [DrainRequested] + if live == [] then [DrainReady] else [])
      else this
    }

    function Finish(): (Result<(), LifecycleError>, Model<A>) {
      match state
      case Invalid => (Ok(()), this)
      case Draining =>
        if live != [] then (Err(LifecycleError.EntriesRemain(Reported(|live|))), this)
        else (Ok(()), this.(state := Invalid, events := events + [Invalidated]))
      case s => (Err(LifecycleError.InvalidTransition(s, FinishDrain)), this)
    }

    function Destroy(): (Result<(), LifecycleError>, Model<A>) {
      match state
      case Destroyed => (Ok(()), this)
      case Invalid => (Ok(()), this.(state := Destroyed, events := events + [DestroyedEvent]))
      case s => (Err(LifecycleError.InvalidTransition(s, Entry.Destroy)), this)
    }
  }

  function NewModel<A>(attachment: A): Model<A> {
    Model(attachment, Active, 1, [], [])
  }

  /** One call on the reference with the answer it gave. */
  datatype Call<A> =
    | CallEnter(entered: Result<Token<A>, LifecycleError>)
    | CallExit(token: Token<A>, exited: Result<(), LifecycleError>)
    | CallRequest
    | CallFinish(finished: Result<(), LifecycleError>)
    | CallDestroy(destroyed: Result<(), LifecycleError>)

  function Perform<A>(m: Model<A>, c: Call<A>): (Call<A>, Model<A>) {
    match c
    case CallEnter(_) => (CallEnter(m.Enter().0), m.Enter().1)
    case CallExit(t, _) => (CallExit(t, m.Exit(t).0), m.Exit(t).1)
    case CallRequest => (c, m.RequestInvalidate())
    case CallFinish(_) => (CallFinish(m.Finish().0), m.Finish().1)
    case CallDestroy(_) => (CallDestroy(m.Destroy().0), m.Destroy().1)
  }

  /** The state the calls lead to, whatever answers they record. */
  function Replay<A>(m: Model<A>, calls: seq<Call<A>>): Model<A>
    decreases |calls|
  {
    if calls == [] then m
    else Perform(Replay(m, calls[..|calls| - 1]), calls[|calls| - 1]).1
  }

  /** Every recorded answer is the one the reference gives. */
  ghost predicate Answers<A>(m: Model<A>, calls: seq<Call<A>>)
    decreases |calls|
  {
    calls != [] ==>
      var n := |calls| - 1;
      && Answers(m, calls[..n])
      && Perform(Replay(m, calls[..n]), calls[n]).0 == calls[n]
  }

  /** The entries a trace has seen entered and not exited. */
  function OpenEntries(events: seq<Event>): set<nat>
    decreases |events|
  {
    if events == [] then {} else OpenAfter(OpenEntries(events[..|events| - 1]), events[|events| - 1])
  }

  function OpenAfter(open: set<nat>, e: Event): set<nat> {
    match e
    case Entered(n) => open + {n}
    case Exited(n) => open - {n}
    case _ => open
  }

  function EnteredCount(events: seq<Event>): nat
    decreases |events|
  {
    if events == [] then 0
    else EnteredCount(events[..|events| - 1]) + if events[|events| - 1].Entered? then 1 else 0
  }

  /** Whether `e` may follow the trace: entries are numbered in order and stop once a drain was
    requested, an exit closes an open entry, and the four lifecycle marks come once and in order,
    readiness only when no entry is open. */
  predicate MayFollow(events: seq<Event>, e: Event) {
    match e
    case Entered(n) => DrainRequested !in events && n == EnteredCount(events) + 1
    case Exited(n) => n in OpenEntries(events)
    case DrainRequested => DrainRequested !in events
    case DrainReady => DrainRequested in events && DrainReady !in events && OpenEntries(events) == {}
    case Invalidated => DrainReady in events && Invalidated !in events
    case DestroyedEvent => Invalidated in events && DestroyedEvent !in events
  }

  predicate Legal(events: seq<Event>)
    decreases |events|
  {
    events != [] ==>
      var n := |events| - 1;
      Legal(events[..n]) && MayFollow(events[..n], events[n])
  }

  /** In a legal trace no event happens twice, every exit has its entry before it, and the marks come
    in order. */
  lemma {:induction false} LegalTraces(events: seq<Event>)
    requires Legal(events)
    ensures forall i, j :: 0 <= i < j < |events| ==> events[i] != events[j]
    ensures forall n: nat :: n in OpenEntries(events) <==> Entered(n) in events && Exited(n) !in events
    ensures forall n: nat :: Exited(n) in events ==> Entered(n) in events
    ensures forall n: nat :: Entered(n) in events ==> 1 <= n <= EnteredCount(events)
    ensures Invalidated in events ==> DrainReady in events
    ensures DrainReady in events ==> DrainRequested in events
    decreases |events|
  {
    if events != [] {
      var before, e := events[..|events| - 1], events[|events| - 1];
      assert events == before + [e];
      LegalTraces(before);
    }
  }

  function Elements(s: seq<nat>): set<nat> {
    set x | x in s
  }

  /** The trace determines the entries. */
  ghost predicate Traced<A>(m: Model<A>) {
    && Legal(m.events)
    && Elements(m.live) == OpenEntries(m.events)
    && |Elements(m.live)| == |m.live|
    && m.nextEntry == EnteredCount(m.events) + 1
    && (forall n :: n in m.live ==> 1 <= n < m.nextEntry)
  }

  /** And the state. */
  ghost predicate Marked<A>(m: Model<A>) {
    && (m.state.Active? <==> DrainRequested !in m.events)
    && (DrainReady in m.events <==> !m.state.Active? && (m.state.Draining? ==> m.live == []))
    && (Invalidated in m.events <==> m.state.Invalid? || m.state.Destroyed?)
    && (DestroyedEvent in m.events <==> m.state.Destroyed?)
    && (m.state.Invalid? || m.state.Destroyed? ==> m.live == [])
  }

  ghost predicate Consistent<A>(m: Model<A>) {
    Traced(m) && Marked(m)
  }

  lemma {:induction false} Extend(events: seq<Event>, e: Event)
    ensures Legal(events) && MayFollow(events, e) ==> Legal(events + [e])
    ensures EnteredCount(events + [e]) == EnteredCount(events) + if e.Entered? then 1 else 0
    ensures OpenEntries(events + [e]) == OpenAfter(OpenEntries(events), e)
  {
    assert (events + [e])[..|events|] == events;
  }

  lemma {:induction false} ElementsBound(s: seq<nat>)
    ensures |Elements(s)| <= |s|
  {
    if s != [] {
      var n := |s| - 1;
      ElementsBound(s[..n]);
      assert s == s[..n] + [s[n]];
      assert Elements(s) == Elements(s[..n]) + {s[n]};
    }
  }

  lemma {:induction false} NoRepetition(s: seq<nat>)
    requires |Elements(s)| == |s|
    ensures forall i, j :: 0 <= i < j < |s| ==> s[i] != s[j]
  {
    if s != [] {
      var n := |s| - 1;
      ElementsBound(s[..n]);
      assert s == s[..n] + [s[n]];
      assert Elements(s) == Elements(s[..n]) + {s[n]};
      NoRepetition(s[..n]);
    }
  }

  lemma SwappedStay(live: seq<nat>, i: nat, x: nat)
    requires i < |live| && x in live && x != live[i]
    ensures x in SwapRemove(live, i)
  {
    var last := |live| - 1;
    var k :| 0 <= k < |live| && live[k] == x;
    assert SwapRemove(live, i)[if k == last then i else k] == x;
  }

  lemma SwappedCame(live: seq<nat>, i: nat, x: nat)
    requires i < |live| && |Elements(live)| == |live| && x in SwapRemove(live, i)
    ensures x in live && x != live[i]
  {
    NoRepetition(live);
    var rest, last := SwapRemove(live, i), |live| - 1;
    var k :| 0 <= k < |rest| && rest[k] == x;
    assert x == live[if k == i then last else k];
  }

  /** `swap_remove` moves the last entry into the gap: the others stay, in some order. */
  lemma SwapRemoveSpec(live: seq<nat>, i: nat)
    requires i < |live| && |Elements(live)| == |live|
    ensures Elements(SwapRemove(live, i)) == Elements(live) - {live[i]}
    ensures |Elements(SwapRemove(live, i))| == |SwapRemove(live, i)|
  {
    forall x
      ensures x in SwapRemove(live, i) <==> x in Elements(live) - {live[i]}
    {
      if x in live && x != live[i] { SwappedStay(live, i, x); }
      if x in SwapRemove(live, i) { SwappedCame(live, i, x); }
    }
  }

  lemma AddOne(live: seq<nat>, n: nat)
    requires n !in live && |Elements(live)| == |live|
    ensures Elements(live + [n]) == Elements(live) + {n}
    ensures |Elements(live + [n])| == |live + [n]|
  {
    assert Elements(live + [n]) == Elements(live) + {n};
  }

  lemma EnterKeeps<A>(m: Model<A>)
    requires Consistent(m)
    ensures Consistent(m.Enter().1)
  {
    if m.Enter().0.Ok? {
      Extend(m.events, Entered(m.nextEntry));
      AddOne(m.live, m.nextEntry);
    }
  }

  lemma ExitKeepsTrace<A>(m: Model<A>, t: Token<A>)
    requires Consistent(m)
    ensures Traced(m.Exit(t).1)
  {
    var n := m.Exit(t).1;
    if m.Exit(t).0.Ok? {
      var i := Position(m.live, t.sequence);
      SwapRemoveSpec(m.live, i);
      Extend(m.events, Exited(t.sequence));
      var traced := m.events + [Exited(t.sequence)];
      assert t.sequence in Elements(m.live);
      assert forall k :: k in n.live ==> k in Elements(n.live) && k in m.live;
      if m.state.Draining? && n.live == [] {
        Extend(traced, DrainReady);
        assert n.events == traced + [DrainReady];
      } else {
        assert n.events == traced;
      }
    }
  }

  lemma ExitKeepsMarks<A>(m: Model<A>, t: Token<A>)
    requires Consistent(m)
    ensures Marked(m.Exit(t).1)
  {
    assert m.live == [] ==> Position(m.live, t.sequence) == |m.live|;
  }

  lemma RequestKeepsTrace<A>(m: Model<A>)
    requires Consistent(m)
    ensures Traced(m.RequestInvalidate())
  {
    var traced := m.events + [DrainRequested];
    Extend(m.events, DrainRequested);
    if m.live == [] {
      Extend(traced, DrainReady);
    } else {
      assert traced + [] == traced;
    }
  }

  lemma RequestKeepsMarks<A>(m: Model<A>)
    requires Consistent(m)
    ensures Marked(m.RequestInvalidate())
  {
  }

  lemma FinishKeeps<A>(m: Model<A>)
    requires Consistent(m)
    ensures Consistent(m.Finish().1)
  {
    Extend(m.events, Invalidated);
  }

  lemma DestroyKeeps<A>(m: Model<A>)
    requires Consistent(m)
    ensures Consistent(m.Destroy().1)
  {
    Extend(m.events, DestroyedEvent);
  }

  /** Every history of calls, accepted or rejected, leaves a legal trace that determines the state. */
  lemma {:induction false} ReplayIsConsistent<A>(attachment: A, calls: seq<Call<A>>)
    ensures Consistent(Replay(NewModel(attachment), calls))
    decreases |calls|
  {
    if calls != [] {
      var m := Replay(NewModel(attachment), calls[..|calls| - 1]);
      ReplayIsConsistent(attachment, calls[..|calls| - 1]);
      match calls[|calls| - 1]
      case CallEnter(_) => EnterKeeps(m);
      case CallExit(t, _) => ExitKeepsTrace(m, t); ExitKeepsMarks(m, t);
      case CallRequest => RequestKeepsTrace(m); RequestKeepsMarks(m);
      case CallFinish(_) => FinishKeeps(m);
      case CallDestroy(_) => DestroyKeeps(m);
    }
  }

  lemma {:induction false} AttachmentIsFixed<A>(m: Model<A>, calls: seq<Call<A>>)
    ensures Replay(m, calls).attachment == m.attachment
    decreases |calls|
  {
    if calls != [] {
      AttachmentIsFixed(m, calls[..|calls| - 1]);
    }
  }

  /** An entry is granted, with the next number, until a drain was requested or the numbers end. */
  ghost predicate EnterFollows<A>(m: Model<A>) {
    var next := EnteredCount(m.events) + 1;
    && (m.Enter().0 == Ok(Token(m.attachment, next)) <==> DrainRequested !in m.events && next < U64_MAX)
    && (m.Enter().0 == Err(EntrySpaceExhausted) <==> DrainRequested !in m.events && next >= U64_MAX)
  }

  /** Exactly an open entry of this attachment can exit. */
  ghost predicate ExitFollows<A>(m: Model<A>, t: Token<A>) {
    m.Exit(t).0 == if t.attachment != m.attachment then Err(WrongRuntime)
                   else if t.sequence in OpenEntries(m.events) then Ok(()) else Err(StaleEntry)
  }

  /** The drain finishes exactly once readiness was announced, and destruction needs the invalidation. */
  ghost predicate TeardownFollows<A>(m: Model<A>) {
    && (m.Finish().0 == Ok(()) <==> DrainReady in m.events && DestroyedEvent !in m.events)
    && (m.Finish().0 == Err(LifecycleError.EntriesRemain(Reported(|OpenEntries(m.events)|))) <==>
          DrainRequested in m.events && DrainReady !in m.events)
    && (m.Destroy().0 == Ok(()) <==> Invalidated in m.events)
  }

  lemma EnterAnswers<A>(m: Model<A>)
    requires Consistent(m)
    ensures EnterFollows(m)
  {
  }

  lemma ExitAnswers<A>(m: Model<A>, t: Token<A>)
    requires Consistent(m)
    ensures ExitFollows(m, t)
  {
    assert t.sequence in m.live <==> t.sequence in Elements(m.live);
  }

  lemma TeardownAnswers<A>(m: Model<A>)
    requires Consistent(m)
    ensures TeardownFollows(m)
  {
  }

  /** After every history of calls, what the reference answers follows from its trace alone. */
  lemma AnswersFollowTrace<A>(attachment: A, calls: seq<Call<A>>, t: Token<A>)
    ensures var m := Replay(NewModel(attachment), calls);
            m.attachment == attachment && EnterFollows(m) && ExitFollows(m, t) && TeardownFollows(m)
  {
    ReplayIsConsistent(attachment, calls);
    AttachmentIsFixed(NewModel(attachment), calls);
    var m := Replay(NewModel(attachment), calls);
    EnterAnswers(m);
    ExitAnswers(m, t);
    TeardownAnswers(m);
  }

  class LifecycleModel<A(==)> {
    const attachment: A
    var state: HostState
    var nextEntry: nat
    var live: seq<nat>
    var events: seq<Event>

    ghost function View(): Model<A>
      reads this
    {
      Model(attachment, state, nextEntry, live, events)
    }

    constructor (attachment: A)
      ensures View() == NewModel(attachment)
    {
      this.attachment := attachment;
      state, nextEntry, live, events := Active, 1, [], [];
    }

    method Enter() returns (r: Result<Token<A>, LifecycleError>)
      modifies this
      ensures (r, View()) == old(View()).Enter()
    {
      if state != Active {
        return Err(LifecycleError.NotActive(state));
      }
      if nextEntry >= U64_MAX {
        return Err(EntrySpaceExhausted);
      }
      var entry := Token(attachment, nextEntry);
      nextEntry := nextEntry + 1;
      live := live + [entry.sequence];
      events := events + [Entered(entry.sequence)];
      return Ok(entry);
    }

    /** The first place of the sequence among the live entries. */
    method Find(sequence: nat) returns (i: nat)
      ensures i == Position(live, sequence)
    {
      i := 0;
      while i < |live| && live[i] != sequence
        invariant i <= |live|
        invariant Position(live, sequence) == i + Position(live[i..], sequence)
      {
        assert live[i..][1..] == live[i + 1..];
        i := i + 1;
      }
    }

    method Exit(entry: Token<A>) returns (r: Result<(), LifecycleError>)
      modifies this
      ensures (r, View()) == old(View()).Exit(entry)
    {
      if entry.attachment != attachment {
        return Err(WrongRuntime);
      }
      var index := Find(entry.sequence);
      if index == |live| {
        return Err(StaleEntry);
      }
      live := SwapRemove(live, index);
      events := events + [Exited(entry.sequence)];
      if state == Draining && |live| == 0 {
        events := events + [DrainReady];
      } else {
        assert events + [] == events;
      }
      return Ok(());
    }

    method RequestInvalidate()
      modifies this
      ensures View() == old(View()).RequestInvalidate()
    {
      if state == Active {
        state := Draining;
        events := events + [DrainRequested];
        if |live| == 0 {
          events := events + [DrainReady];
        } else {
          assert events + [] == events;
        }
      }
    }

    method Finish() returns (r: Result<(), LifecycleError>)
      modifies this
      ensures (r, View()) == old(View()).Finish()
    {
      match state {
        case Invalid => return Ok(());
        case Draining =>
        case Active => return Err(LifecycleError.InvalidTransition(state, FinishDrain));
        case Destroyed => return Err(LifecycleError.InvalidTransition(state, FinishDrain));
      }
      if |live| != 0 {
        return Err(LifecycleError.EntriesRemain(Reported(|live|)));
      }
      state := Invalid;
      events := events + [Invalidated];
      return Ok(());
    }

    method Destroy() returns (r: Result<(), LifecycleError>)
      modifies this
      ensures (r, View()) == old(View()).Destroy()
    {
      match state {
        case Destroyed => return Ok(());
        case Invalid =>
          state := Destroyed;
          events := events + [DestroyedEvent];
          return Ok(());
        case Active => return Err(LifecycleError.InvalidTransition(state, Entry.Destroy));
        case Draining => return Err(LifecycleError.InvalidTransition(state, Entry.Destroy));
      }
    }
  }
}
