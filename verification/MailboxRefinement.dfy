/** Every run of the mailbox, however its operations interleave, is a run of the sequential reference.

  Each mailbox step is matched by zero, one or two calls on the reference, and the reference gives
  exactly the answers the mailbox gives: the same payloads popped, the same refusals, the same order.
  The reference issues ids from `u64` sequences that end; the mailbox needs none. The match therefore
  exists exactly for the runs that stay within those sequences.
*/
module MailboxRefinement {
  import opened Words
  import opened Wrappers
  import opened Ingress
  import W = WorkQueue
  import opened Mailbox
  import opened MailboxInvariant

  function Payloads<T>(items: seq<Item<T>>): (r: seq<T>)
    ensures |r| == |items|
    ensures forall k :: 0 <= k < |items| ==> r[k] == items[k].payload
  {
    seq(|items|, k requires 0 <= k < |items| => items[k].payload)
  }

  /** The reservation an activity holds in the reference: from its admission until its push. */
  function TicketOf<T>(a: Activity<T>): set<nat> {
    if a.Producing? && a.producer.ProducerPush? then {a.producer.ticket} else {}
  }

  function Tickets<T>(acts: map<Id, Activity<T>>): set<nat> {
    set i, t | i in acts && t in TicketOf(acts[i]) :: t
  }

  /** The reference's lease for a normal drain: none before its first payload. */
  function LeaseOf<T>(a: Activity<T>): Option<nat> {
    match a
    case Draining(DrainLoop(l)) => l
    case Draining(DrainCheck(l, _)) => l
    case Draining(DrainRequest(l, _)) => l
    case Draining(DrainFinish(l, _)) => l
    case _ => None
  }

  /** Same contents, same lifecycle, same ids issued. */
  ghost predicate SameShared<T>(m: Shared<T>, q: W.Queue<T>) {
    && q.capacity == m.capacity
    && q.state == Lifecycle(m)
    && q.queue == Payloads(m.queue)
    && q.nextReservation == W.Successor(m.history.grants)
    && q.nextLease == W.Successor(m.history.leases)
    && q.nextTerminalLease == W.Successor(m.history.claims)
  }

  /** What the reference's tokens say about one activity. */
  predicate SameTokens<T>(a: Activity<T>, q: W.Queue<T>) {
    && TicketOf(a) <= q.reservations
    && (Holds(a, DrainPermit) ==> q.activeDrain == LeaseOf(a))
    && (a.Owning? ==> q.activeTerminal == Some(a.terminalLease))
  }

  ghost predicate Related<T>(s: State<T>, q: W.Queue<T>) {
    && SameShared(s.shared, q)
    && q.reservations == Tickets(s.acts)
    && (forall i :: i in s.acts ==> SameTokens(s.acts[i], q))
    && (!s.shared.signal.InDrain() ==> q.activeDrain == None)
    && (!s.shared.terminal.Active? ==> q.activeTerminal == None)
  }

  /** Tickets were issued, each to one producer. */
  predicate TicketsIssued<T>(s: State<T>) {
    && (forall i, t :: i in s.acts && t in TicketOf(s.acts[i]) ==> t <= s.shared.history.grants)
    && (forall i, j, t :: i in s.acts && j in s.acts && t in TicketOf(s.acts[i]) && t in TicketOf(s.acts[j]) ==> i == j)
  }

  predicate WithinIds<T>(m: Shared<T>) {
    && m.history.grants <= U64_MAX
    && m.history.leases <= U64_MAX
    && m.history.claims <= U64_MAX
  }

  function Head<T>(m: Shared<T>): Option<T> {
    if m.queue == [] then None else Some(m.queue[0].payload)
  }

  /** The calls on the reference that a step of an activity stands for. */
  function CallsOf<T>(m: Shared<T>, a: Activity<T>, c: Choice): seq<W.Call<T>> {
    match a
    case Producing(ProducerReserve(_, _)) =>
      if !m.producers.phase.Open? then [W.CallReserve(Err(W.NotOpen(Lifecycle(m))))]
      else if m.producers.count == RESERVATION_MASK then []
      else [W.CallReserve(Ok(m.history.grants + 1))]
    case Producing(ProducerPush(v, _, t)) =>
      [W.CallPublish(t, v, if |m.queue| == m.capacity then Err(W.Full(v)) else Ok(()))]
    case Draining(d) => DrainCalls(m, d, c)
    case Claiming(k) => ClaimCalls(m, k, c)
    case Owning(lease, o) => OwnerCalls(m, lease, o, c)
    case _ => []
  }

  function DrainCalls<T>(m: Shared<T>, d: DrainStep, c: Choice): seq<W.Call<T>> {
    match d
    case DrainLoop(lease) =>
      if c != Pop then []
      else
        (match lease
         case Some(l) => [W.CallPop(l, Ok(Head(m)))]
         case None =>
           if m.queue == [] then [W.CallBeginDrain(Err(W.Empty))]
           else [W.CallBeginDrain(Ok(m.history.leases + 1)), W.CallPop(m.history.leases + 1, Ok(Head(m)))])
    case DrainFinish(Some(l), _) => [W.CallFinishDrain(l, Ok(()))]
    case _ => []
  }

  function ClaimCalls<T>(m: Shared<T>, k: ClaimStep, c: Choice): seq<W.Call<T>> {
    match k
    case CloserBegin => [W.CallBeginClose]
    case ClaimSealProducers =>
      if m.producers.phase.Open? then [W.CallBeginTerminal(Err(W.InvalidState(W.Open)))] else []
    case ClaimLoad =>
      if m.terminal.Active? then [W.CallBeginTerminal(Err(W.TerminalDrainActive))]
      else if m.terminal.Closed? then [W.CallBeginTerminal(Err(W.InvalidState(W.Closed)))]
      else []
    case ClaimSwap =>
      if c == Fail || m.terminal.Active? || m.terminal.Closed? then []
      else [W.CallBeginTerminal(Ok(m.history.claims + 1))]
    case _ => []
  }

  function OwnerCalls<T>(m: Shared<T>, lease: nat, o: OwnerStep, c: Choice): seq<W.Call<T>> {
    match o
    case OwnerLoop => if c == Pop then [W.CallPopTerminal(lease, Ok(Head(m)))] else []
    case OwnerCheck =>
      if m.queue == [] then [] else [W.CallFinishTerminal(lease, Err(W.PayloadsRemain(|m.queue|)))]
    case OwnerFinish => [W.CallFinishTerminal(lease, Ok(()))]
    case OwnerDrop(_) => [W.CallReleaseTerminal(lease, Ok(()))]
  }

  function Given<T>(popped: Option<T>): seq<T> {
    if popped.Some? then [popped.value] else []
  }

  /** The refusal a claim is given when the reference gives this error. */
  function RefusalFor(e: W.TerminalError): Option<ClaimError> {
    match e
    case InvalidState(Open) => Some(ProducerCloseNotStarted)
    case InvalidState(Closed) => Some(AlreadyClosed)
    case TerminalDrainActive => Some(ClaimError.TerminalDrainActive)
    case _ => None
  }

  /** The answer recorded in a call is the one the step from `m`, `a` to `n`, `b` gives. */
  ghost predicate SameAnswer<T>(m: Shared<T>, a: Activity<T>, n: Shared<T>, b: Activity<T>, call: W.Call<T>) {
    match call
    case CallReserve(r) =>
      && a.Producing? && a.producer.ProducerReserve?
      && (r.Ok? <==> b == Producing(ProducerPush(a.producer.payload, a.producer.posting, n.history.grants)))
      && (r.Ok? ==> r.value == n.history.grants)
      && (r.Err? <==> b == EnqueueDone(RejectedClosed(a.producer.payload)))
    case CallPublish(t, v, r) =>
      && Payloads(n.history.accepted) == Payloads(m.history.accepted) + (if r.Ok? then [v] else [])
      && (r.Err? <==> b == Producing(ProducerRelease(RejectedFull(v))))
      && (r.Err? ==> r.error == W.Full(v))
    case CallAbandon(_, _) => false
    case CallBeginClose => b.CloserDone? && !n.producers.phase.Open?
    case CallBeginDrain(r) => if r.Ok? then b == Draining(DrainLoop(Some(r.value))) else r.error == W.Empty && b == a
    case CallPop(l, r) =>
      && r.Ok? && b == Draining(DrainLoop(Some(l)))
      && Payloads(n.history.drained) == Payloads(m.history.drained) + Given(r.value)
    case CallFinishDrain(_, r) => r.Ok? && b.Draining? && (b.drain.DrainOperation? || b.drain.DrainRelease?)
    case CallBeginTerminal(r) => if r.Ok? then b == Owning(r.value, OwnerLoop) else RefusalFor(r.error).Some? && b == ClaimRefused(RefusalFor(r.error).value)
    case CallPopTerminal(l, r) =>
      && r.Ok? && b == Owning(l, OwnerLoop)
      && Payloads(n.history.recovered) == Payloads(m.history.recovered) + Given(r.value)
    case CallFinishTerminal(l, r) =>
      && (r.Ok? <==> b == OwnerDone(Finished))
      && (r.Err? ==> r.error.PayloadsRemain? && b == Owning(l, OwnerDrop(Some(FinishError.PayloadsRemain(r.error.count)))))
    case CallReleaseTerminal(_, r) => r.Ok? && b.OwnerDone? && b.end.Released?
  }

  lemma PayloadsOneMore<T>(items: seq<Item<T>>, x: Item<T>)
    ensures Payloads(items + [x]) == Payloads(items) + [x.payload]
  {
  }

  lemma ProducerAnswers<T>(m: Shared<T>, me: Id, p: ProducerStep<T>, c: Choice, k: nat)
    requires Ready(m, Producing(p)) && k < |CallsOf(m, Producing(p), c)|
    ensures var (n, b) := FireProducer(m, me, p, c); SameAnswer(m, Producing(p), n, b, CallsOf(m, Producing(p), c)[k])
  {
    if p.ProducerPush? {
      PayloadsOneMore(m.history.accepted, Item(p.payload, me));
    }
  }

  lemma DrainAnswers<T>(m: Shared<T>, d: DrainStep, c: Choice, k: nat)
    requires Ready(m, Draining(d)) && k < |DrainCalls(m, d, c)|
    ensures var (n, b) := FireDrain(m, d, c); SameAnswer(m, Draining(d), n, b, DrainCalls(m, d, c)[k])
  {
    if m.queue != [] {
      PayloadsOneMore(m.history.drained, m.queue[0]);
    }
  }

  lemma ClaimAnswers<T>(m: Shared<T>, s: ClaimStep, c: Choice, k: nat)
    requires Ready(m, Claiming(s)) && k < |ClaimCalls(m, s, c)|
    ensures var (n, b) := FireClaim(m, s, c); SameAnswer(m, Claiming(s), n, b, ClaimCalls(m, s, c)[k])
  {
  }

  lemma OwnerAnswers<T>(m: Shared<T>, lease: nat, o: OwnerStep, c: Choice, k: nat)
    requires Ready(m, Owning(lease, o)) && k < |OwnerCalls(m, lease, o, c)|
    ensures var (n, b) := FireOwner(m, lease, o, c); SameAnswer(m, Owning(lease, o), n, b, OwnerCalls(m, lease, o, c)[k])
  {
    if m.queue != [] {
      PayloadsOneMore(m.history.recovered, m.queue[0]);
    }
  }

  /** Every call a step is matched by records the answer the step itself gives: the same admission, the same
      payload popped, the same refusal. */
  lemma StepAnswersAlike<T>(m: Shared<T>, me: Id, a: Activity<T>, c: Choice, k: nat)
    requires Ready(m, a) && k < |CallsOf(m, a, c)|
    ensures SameAnswer(m, a, Fire(m, me, a, c).0, Fire(m, me, a, c).1, CallsOf(m, a, c)[k])
  {
    match a
    case Producing(p) => ProducerAnswers(m, me, p, c, k);
    case Draining(d) => DrainAnswers(m, d, c, k);
    case Claiming(s) => ClaimAnswers(m, s, c, k);
    case Owning(lease, o) => OwnerAnswers(m, lease, o, c, k);
    case _ =>
  }

  /** A step that rejects an enqueue, refuses a claim or pops a payload without a call is one the reference
      cannot make: an enqueue met a full permit field, or a claim met a permit the reference has not or
      no longer counts. */
  lemma SilentAnswers<T>(m: Shared<T>, me: Id, a: Activity<T>, c: Choice)
    requires Ready(m, a) && CallsOf(m, a, c) == []
    ensures var (n, b) := Fire(m, me, a, c);
            && (n.history.accepted, n.history.drained, n.history.recovered) == (m.history.accepted, m.history.drained, m.history.recovered)
            && (a.Producing? && a.producer.ProducerReserve? ==> m.producers == Gate(Open, RESERVATION_MASK))
            && (b.ClaimRefused? && a.Claiming? ==> b.refusal.ProducerReservationsRemain? || b.refusal.NormalDrainReservationsRemain?)
  {
    FireIsSafe(m, me, a, c);
  }

  /** What the reference must agree on with one activity before that activity steps. */
  ghost predicate Agrees<T>(m: Shared<T>, a: Activity<T>, q: W.Queue<T>) {
    && SameShared(m, q)
    && SameTokens(a, q)
    && (m.producers.count == 0 ==> q.reservations == {})
    && (!m.signal.InDrain() ==> q.activeDrain == None)
    && (!m.terminal.Active? ==> q.activeTerminal == None)
  }

  /** And what they agree on afterwards. */
  ghost predicate AgreesAfter<T>(a: Activity<T>, q: W.Queue<T>, n: Shared<T>, b: Activity<T>, r: W.Queue<T>) {
    && SameShared(n, r)
    && r.reservations == q.reservations - TicketOf(a) + TicketOf(b)
    && r.activeDrain == (if Holds(b, DrainPermit) then LeaseOf(b) else if Holds(a, DrainPermit) then None else q.activeDrain)
    && r.activeTerminal == (if b.Owning? then Some(b.terminalLease) else if a.Owning? then None else q.activeTerminal)
  }

  ghost predicate Simulated<T>(m: Shared<T>, a: Activity<T>, q: W.Queue<T>, n: Shared<T>, b: Activity<T>, calls: seq<W.Call<T>>) {
    && W.PerformAll(q, calls).Some?
    && AgreesAfter(a, q, n, b, W.PerformAll(q, calls).value)
  }

  lemma {:induction false} PerformShort<T>(q: W.Queue<T>, calls: seq<W.Call<T>>)
    requires |calls| <= 2
    ensures W.PerformAll(q, calls) ==
            if calls == [] then Some(q)
            else match W.Perform(q, calls[0])
              case None => None
              case Some(r) => if |calls| == 1 then Some(r) else W.Perform(r, calls[1])
  {
    if |calls| > 0 && W.Perform(q, calls[0]).Some? {
      var r := W.Perform(q, calls[0]).value;
      assert W.PerformAll(q, calls) == W.PerformAll(r, calls[1..]);
      if |calls| == 1 {
        assert calls[1..] == [];
      } else {
        assert calls[1..] == [calls[1]];
        if W.Perform(r, calls[1]).Some? {
          var t := W.Perform(r, calls[1]).value;
          assert [calls[1]][1..] == [];
          assert W.PerformAll(r, [calls[1]]) == W.PerformAll(t, []);
        }
      }
    }
  }

  lemma ProducerSimulates<T>(m: Shared<T>, q: W.Queue<T>, me: Id, p: ProducerStep<T>, c: Choice)
    requires Ready(m, Producing(p)) && Agrees(m, Producing(p), q)
    requires WithinIds(FireProducer(m, me, p, c).0)
    ensures var (n, b) := FireProducer(m, me, p, c);
            Simulated(m, Producing(p), q, n, b, CallsOf(m, Producing(p), c))
  {
    PerformShort(q, CallsOf(m, Producing(p), c));
    var n := FireProducer(m, me, p, c).0;
    if p.ProducerPush? && |m.queue| != m.capacity {
      assert Payloads(n.queue) == Payloads(m.queue) + [p.payload];
    }
  }

  lemma PopSimulates<T>(m: Shared<T>, q: W.Queue<T>, lease: Option<nat>, c: Choice)
    requires Ready(m, Draining(DrainLoop(lease))) && Agrees(m, Draining(DrainLoop(lease)), q)
    requires WithinIds(FireDrain(m, DrainLoop(lease), c).0)
    ensures var (n, b) := FireDrain(m, DrainLoop(lease), c);
            Simulated(m, Draining(DrainLoop(lease)), q, n, b, DrainCalls(m, DrainLoop(lease), c))
  {
    PerformShort(q, DrainCalls(m, DrainLoop(lease), c));
    var n := FireDrain(m, DrainLoop(lease), c).0;
    assert n.queue == m.queue || Payloads(n.queue) == Payloads(m.queue)[1..];
  }

  lemma DrainSimulates<T>(m: Shared<T>, q: W.Queue<T>, d: DrainStep, c: Choice)
    requires Ready(m, Draining(d)) && Agrees(m, Draining(d), q)
    requires WithinIds(FireDrain(m, d, c).0)
    ensures var (n, b) := FireDrain(m, d, c);
            Simulated(m, Draining(d), q, n, b, DrainCalls(m, d, c))
  {
    if d.DrainLoop? {
      PopSimulates(m, q, d.lease, c);
    } else {
      PerformShort(q, DrainCalls(m, d, c));
      DrainIsSafe(m, d, c);
    }
  }

  lemma ClosingSimulates<T>(m: Shared<T>, q: W.Queue<T>, k: ClaimStep, c: Choice)
    requires Ready(m, Claiming(k)) && Agrees(m, Claiming(k), q)
    requires k.CloserBegin? || k.ClaimSealProducers? || k.ClaimCloseNormals? || k.ClaimSealNormals? || k.ClaimCloseSignal?
    ensures var (n, b) := FireClaim(m, k, c);
            Simulated(m, Claiming(k), q, n, b, ClaimCalls(m, k, c))
  {
    PerformShort(q, ClaimCalls(m, k, c));
  }

  lemma LoadSimulates<T>(m: Shared<T>, q: W.Queue<T>, c: Choice)
    requires Ready(m, Claiming(ClaimLoad)) && Agrees(m, Claiming(ClaimLoad), q)
    ensures var (n, b) := FireClaim(m, ClaimLoad, c);
            Simulated(m, Claiming(ClaimLoad), q, n, b, ClaimCalls(m, ClaimLoad, c))
  {
    PerformShort(q, ClaimCalls(m, ClaimLoad, c));
  }

  lemma SwapSimulates<T>(m: Shared<T>, q: W.Queue<T>, c: Choice)
    requires Ready(m, Claiming(ClaimSwap)) && Agrees(m, Claiming(ClaimSwap), q)
    requires WithinIds(FireClaim(m, ClaimSwap, c).0)
    ensures var (n, b) := FireClaim(m, ClaimSwap, c);
            Simulated(m, Claiming(ClaimSwap), q, n, b, ClaimCalls(m, ClaimSwap, c))
  {
    PerformShort(q, ClaimCalls(m, ClaimSwap, c));
  }

  lemma ClaimSimulates<T>(m: Shared<T>, q: W.Queue<T>, k: ClaimStep, c: Choice)
    requires Ready(m, Claiming(k)) && Agrees(m, Claiming(k), q)
    requires WithinIds(FireClaim(m, k, c).0)
    ensures var (n, b) := FireClaim(m, k, c);
            Simulated(m, Claiming(k), q, n, b, ClaimCalls(m, k, c))
  {
    match k
    case ClaimLoad => LoadSimulates(m, q, c);
    case ClaimSwap => SwapSimulates(m, q, c);
    case _ => ClosingSimulates(m, q, k, c);
  }

  lemma OwnerSimulates<T>(m: Shared<T>, q: W.Queue<T>, lease: nat, o: OwnerStep, c: Choice)
    requires Ready(m, Owning(lease, o)) && Agrees(m, Owning(lease, o), q)
    requires o.OwnerFinish? ==> m.queue == []
    ensures var (n, b) := FireOwner(m, lease, o, c);
            Simulated(m, Owning(lease, o), q, n, b, OwnerCalls(m, lease, o, c))
  {
    PerformShort(q, OwnerCalls(m, lease, o, c));
    var n := FireOwner(m, lease, o, c).0;
    assert n.queue == m.queue || Payloads(n.queue) == Payloads(m.queue)[1..];
  }

  /** The other activities read and settle; the reference does not move. */
  lemma OthersStutter<T>(m: Shared<T>, q: W.Queue<T>, me: Id, a: Activity<T>, c: Choice)
    requires Ready(m, a) && Agrees(m, a, q)
    requires !a.Producing? && !a.Draining? && !a.Claiming? && !a.Owning?
    ensures Simulated(m, a, q, Fire(m, me, a, c).0, Fire(m, me, a, c).1, [])
  {
    PerformShort(q, []);
    FireIsSafe(m, me, a, c);
  }

  lemma StepTickets<T>(m: Shared<T>, me: Id, a: Activity<T>, c: Choice)
    ensures var (n, b) := Fire(m, me, a, c);
            && m.history.grants <= n.history.grants
            && m.history.leases <= n.history.leases
            && m.history.claims <= n.history.claims
            && (|| TicketOf(b) <= TicketOf(a)
                || (n.history.grants == m.history.grants + 1 && TicketOf(b) == {n.history.grants}))
  {
  }

  lemma StepKeepsTickets<T>(s: State<T>, id: Id, c: Choice)
    requires TicketsIssued(s) && id in s.acts
    ensures TicketsIssued(Next(s, Step(id, c)))
  {
    StepTickets(s.shared, id, s.acts[id], c);
  }

  lemma RelatedAgrees<T>(s: State<T>, q: W.Queue<T>, id: Id)
    requires Inv(s) && Related(s, q) && id in s.acts
    ensures Agrees(s.shared, s.acts[id], q)
  {
    if s.shared.producers.count == 0 && q.reservations != {} {
      var t :| t in q.reservations;
      var i :| i in s.acts && t in TicketOf(s.acts[i]);
      HolderIsCounted(s.acts, ProducerPermit, i);
    }
  }

  lemma TicketsAfter<T>(s: State<T>, id: Id, b: Activity<T>)
    requires TicketsIssued(s) && id in s.acts
    ensures Tickets(s.acts[id := b]) == Tickets(s.acts) - TicketOf(s.acts[id]) + TicketOf(b)
  {
    var after := s.acts[id := b];
    forall t
      ensures t in Tickets(after) <==> t in Tickets(s.acts) - TicketOf(s.acts[id]) + TicketOf(b)
    {
      if t in Tickets(after) {
        var i :| i in after && t in TicketOf(after[i]);
        assert i != id ==> t in TicketOf(s.acts[i]);
      }
      if t in Tickets(s.acts) && t !in TicketOf(s.acts[id]) {
        var i :| i in s.acts && t in TicketOf(s.acts[i]);
        assert t in TicketOf(after[i]);
      }
      if t in TicketOf(b) {
        assert t in TicketOf(after[id]);
      }
    }
  }

  lemma FireSimulates<T>(s: State<T>, q: W.Queue<T>, id: Id, c: Choice)
    requires Inv(s) && Related(s, q) && id in s.acts
    requires WithinIds(Next(s, Step(id, c)).shared)
    ensures var (n, b) := Fire(s.shared, id, s.acts[id], c);
            Simulated(s.shared, s.acts[id], q, n, b, CallsOf(s.shared, s.acts[id], c))
  {
    var m, a := s.shared, s.acts[id];
    ActivityIsReady(s, id);
    RelatedAgrees(s, q, id);
    match a
    case Producing(p) => ProducerSimulates(m, q, id, p, c);
    case Draining(d) => DrainSimulates(m, q, d, c);
    case Claiming(k) => ClaimSimulates(m, q, k, c);
    case Owning(lease, o) => OwnerSimulates(m, q, lease, o, c);
    case _ => OthersStutter(m, q, id, a, c);
  }

  /** One mailbox step is at most two calls, a legal continuation of the reference that ends in a related state. */
  lemma {:induction false} StepSimulates<T>(s: State<T>, q: W.Queue<T>, id: Id, c: Choice)
    requires Inv(s) && TicketsIssued(s) && Related(s, q) && id in s.acts
    requires WithinIds(Next(s, Step(id, c)).shared)
    ensures |CallsOf(s.shared, s.acts[id], c)| <= 2
    ensures var end := W.PerformAll(q, CallsOf(s.shared, s.acts[id], c));
            end.Some? && Related(Next(s, Step(id, c)), end.value)
  {
    var t := Next(s, Step(id, c));
    var a, b := s.acts[id], t.acts[id];
    FireSimulates(s, q, id, c);
    StepKeepsInv(s, id, c);
    TicketsAfter(s, id, b);
    AtMostTwoCalls(s.shared, a, c);
    var r := W.PerformAll(q, CallsOf(s.shared, a, c)).value;
    AllTokensAgree(s, t, q, r, id, c);
    FlagsWithoutHolders(s, t, q, r, id, c);
  }

  lemma AtMostTwoCalls<T>(m: Shared<T>, a: Activity<T>, c: Choice)
    ensures |CallsOf(m, a, c)| <= 2
  {
  }

  lemma AllTokensAgree<T>(s: State<T>, t: State<T>, q: W.Queue<T>, r: W.Queue<T>, id: Id, c: Choice)
    requires Inv(s) && TicketsIssued(s) && Related(s, q) && id in s.acts
    requires t == Next(s, Step(id, c)) && Inv(t)
    requires AgreesAfter(s.acts[id], q, t.shared, t.acts[id], r)
    ensures forall i :: i in t.acts ==> SameTokens(t.acts[i], r)
  {
    forall i | i in t.acts
      ensures SameTokens(t.acts[i], r)
    {
      if i != id {
        OtherTokensStay(s, t, q, r, id, i);
      }
    }
  }

  lemma OtherTokensStay<T>(s: State<T>, t: State<T>, q: W.Queue<T>, r: W.Queue<T>, id: Id, i: Id)
    requires Inv(s) && Inv(t) && TicketsIssued(s) && Related(s, q)
    requires id in s.acts && i in s.acts && i != id && id in t.acts && i in t.acts && t.acts[i] == s.acts[i]
    requires AgreesAfter(s.acts[id], q, t.shared, t.acts[id], r)
    ensures SameTokens(t.acts[i], r)
  {
    if Holds(t.acts[i], DrainPermit) {
      HolderIsCounted(s.acts, DrainPermit, i);
      HolderIsCounted(t.acts, DrainPermit, i);
      if Holds(s.acts[id], DrainPermit) {
        HolderIsCounted(s.acts, DrainPermit, id);
        OnlyHolder(s.acts, DrainPermit, i, id);
      }
      if Holds(t.acts[id], DrainPermit) {
        HolderIsCounted(t.acts, DrainPermit, id);
        OnlyHolder(t.acts, DrainPermit, i, id);
      }
    }
    if t.acts[i].Owning? {
      HolderIsCounted(s.acts, TerminalLease, i);
      HolderIsCounted(t.acts, TerminalLease, i);
      if s.acts[id].Owning? {
        HolderIsCounted(s.acts, TerminalLease, id);
        OnlyHolder(s.acts, TerminalLease, i, id);
      }
      if t.acts[id].Owning? {
        HolderIsCounted(t.acts, TerminalLease, id);
        OnlyHolder(t.acts, TerminalLease, i, id);
      }
    }
  }

  /** The reference's lease fields are empty exactly when the mailbox flags are down. */
  lemma FlagsWithoutHolders<T>(s: State<T>, t: State<T>, q: W.Queue<T>, r: W.Queue<T>, id: Id, c: Choice)
    requires Inv(s) && Related(s, q) && id in s.acts
    requires t == Next(s, Step(id, c)) && Inv(t)
    requires AgreesAfter(s.acts[id], q, t.shared, t.acts[id], r)
    ensures !t.shared.signal.InDrain() ==> r.activeDrain == None
    ensures !t.shared.terminal.Active? ==> r.activeTerminal == None
  {
    ActivityIsReady(s, id);
    ActivityIsReady(t, id);
    FireIsSafe(s.shared, id, s.acts[id], c);
  }

  /** The calls on the reference that a whole run stands for. */
  function Trace<T>(capacity: nat, events: seq<Event<T>>): seq<W.Call<T>>
    decreases |events|
  {
    if events == [] then []
    else
      var before := events[..|events| - 1];
      var s := Run(New(capacity), before);
      Trace(capacity, before) +
      match events[|events| - 1]
      case Start(_, _) => []
      case Step(id, c) => if id in s.acts then CallsOf(s.shared, s.acts[id], c) else []
  }

  lemma {:induction false} RunKeepsTickets<T>(capacity: nat, events: seq<Event<T>>)
    ensures TicketsIssued(Run(New(capacity), events))
    decreases |events|
  {
    if events != [] {
      RunKeepsTickets(capacity, events[..|events| - 1]);
      match events[|events| - 1]
      case Start(_, _) =>
      case Step(id, c) =>
        var s := Run(New(capacity), events[..|events| - 1]);
        if id in s.acts {
          StepKeepsTickets(s, id, c);
        }
    }
  }

  /** Every mailbox run within the id space is a run of the reference. */
  lemma {:induction false} RunIsReferenceRun<T>(capacity: nat, events: seq<Event<T>>)
    requires WithinIds(Run(New(capacity), events).shared)
    ensures var end := W.PerformAll(W.New(capacity), Trace(capacity, events));
            end.Some? && Related(Run(New(capacity), events), end.value)
    decreases |events|
  {
    if events == [] {
      assert Tickets(New<T>(capacity).acts) == {};
      assert Payloads(New<T>(capacity).shared.queue) == [];
    } else {
      var before := events[..|events| - 1];
      var s := Run(New(capacity), before);
      RunKeepsInv(capacity, before);
      RunKeepsTickets(capacity, before);
      match events[|events| - 1]
      case Start(id, a) =>
        RunIsReferenceRun(capacity, before);
        assert Trace(capacity, events) == Trace(capacity, before);
        StartStaysRelated(s, W.PerformAll(W.New(capacity), Trace(capacity, before)).value, id, a);
      case Step(id, c) =>
        if id in s.acts {
          StepTickets(s.shared, id, s.acts[id], c);
          RunIsReferenceRun(capacity, before);
          var q := W.PerformAll(W.New(capacity), Trace(capacity, before)).value;
          StepSimulates(s, q, id, c);
          W.PerformAllAppends(W.New(capacity), Trace(capacity, before), CallsOf(s.shared, s.acts[id], c));
        } else {
          RunIsReferenceRun(capacity, before);
          assert Trace(capacity, events) == Trace(capacity, before);
        }
    }
  }

  lemma StartStaysRelated<T>(s: State<T>, q: W.Queue<T>, id: Id, a: Activity<T>)
    requires Related(s, q)
    ensures Related(Next(s, Start(id, a)), q)
  {
    var t := Next(s, Start(id, a));
    if t != s {
      forall i | i in t.acts
        ensures SameTokens(t.acts[i], q)
      {
        assert i != id ==> SameTokens(s.acts[i], q);
      }
      forall k
        ensures k in Tickets(t.acts) <==> k in Tickets(s.acts)
      {
        if k in Tickets(s.acts) {
          var i :| i in s.acts && k in TicketOf(s.acts[i]);
          assert k in TicketOf(t.acts[i]);
        }
      }
    }
  }

  /** The three id sequences of the reference. */
  datatype Sequence = Reservations | Leases | TerminalLeases

  function Issues<T>(call: W.Call<T>, ids: Sequence): nat {
    match ids
    case Reservations => One(call.CallReserve? && call.reserved.Ok?)
    case Leases => One(call.CallBeginDrain? && call.drain.Ok?)
    case TerminalLeases => One(call.CallBeginTerminal? && call.terminal.Ok?)
  }

  function Issued<T>(calls: seq<W.Call<T>>, ids: Sequence): nat {
    if calls == [] then 0 else Issues(calls[0], ids) + Issued(calls[1..], ids)
  }

  lemma {:induction false} IssuedAppends<T>(a: seq<W.Call<T>>, b: seq<W.Call<T>>, ids: Sequence)
    ensures Issued(a + b, ids) == Issued(a, ids) + Issued(b, ids)
    decreases |a|
  {
    if a == [] {
      assert a + b == b;
    } else {
      assert (a + b)[1..] == a[1..] + b;
      IssuedAppends(a[1..], b, ids);
    }
  }

  function NextId<T>(q: W.Queue<T>, ids: Sequence): Option<nat> {
    match ids
    case Reservations => q.nextReservation
    case Leases => q.nextLease
    case TerminalLeases => q.nextTerminalLease
  }

  /** No run of the reference issues more ids than a `NonZeroU64` has values. */
  lemma {:induction false} ReferenceIssuesWithinIds<T>(q: W.Queue<T>, n: nat, calls: seq<W.Call<T>>, ids: Sequence)
    requires NextId(q, ids) == W.Successor(n) && n <= U64_MAX
    requires W.PerformAll(q, calls).Some?
    ensures n + Issued(calls, ids) <= U64_MAX
    decreases |calls|
  {
    if calls != [] {
      var r := W.Perform(q, calls[0]).value;
      ReferenceIssuesWithinIds(r, n + Issues(calls[0], ids), calls[1..], ids);
    }
  }

  function Used<T>(m: Shared<T>, ids: Sequence): nat {
    match ids
    case Reservations => m.history.grants
    case Leases => m.history.leases
    case TerminalLeases => m.history.claims
  }

  lemma {:induction false} IssuedShort<T>(calls: seq<W.Call<T>>, ids: Sequence)
    requires |calls| <= 2
    ensures Issued(calls, ids) == (if |calls| > 0 then Issues(calls[0], ids) else 0) + (if |calls| > 1 then Issues(calls[1], ids) else 0)
  {
    if |calls| > 1 {
      var rest := calls[1..];
      assert Issued(rest, ids) == Issues(rest[0], ids) + Issued(rest[1..], ids);
      assert rest[1..] == [];
    }
  }

  lemma {:induction false} DrainStepIssues<T>(m: Shared<T>, d: DrainStep, c: Choice, ids: Sequence)
    ensures Used(FireDrain(m, d, c).0, ids) == Used(m, ids) + Issued(DrainCalls(m, d, c), ids)
  {
    IssuedShort(DrainCalls(m, d, c), ids);
  }

  lemma {:induction false} ClaimStepIssues<T>(m: Shared<T>, k: ClaimStep, c: Choice, ids: Sequence)
    ensures Used(FireClaim(m, k, c).0, ids) == Used(m, ids) + Issued(ClaimCalls(m, k, c), ids)
  {
    IssuedShort(ClaimCalls(m, k, c), ids);
  }

  lemma {:induction false} StepIssues<T>(m: Shared<T>, me: Id, a: Activity<T>, c: Choice, ids: Sequence)
    ensures Used(Fire(m, me, a, c).0, ids) == Used(m, ids) + Issued(CallsOf(m, a, c), ids)
  {
    if a.Draining? {
      DrainStepIssues(m, a.drain, c, ids);
    } else if a.Claiming? {
      ClaimStepIssues(m, a.claim, c, ids);
    } else {
      IssuedShort(CallsOf(m, a, c), ids);
    }
  }

  lemma {:induction false} TraceIssues<T>(capacity: nat, events: seq<Event<T>>, ids: Sequence)
    ensures Issued(Trace(capacity, events), ids) == Used(Run(New(capacity), events).shared, ids)
    decreases |events|
  {
    if events != [] {
      var before := events[..|events| - 1];
      var s := Run(New(capacity), before);
      TraceIssues(capacity, before, ids);
      match events[|events| - 1]
      case Start(_, _) => IssuedAppends<T>(Trace(capacity, before), [], ids);
      case Step(id, c) =>
        var calls := if id in s.acts then CallsOf(s.shared, s.acts[id], c) else [];
        IssuedAppends(Trace(capacity, before), calls, ids);
        if id in s.acts {
          StepIssues(s.shared, id, s.acts[id], c, ids);
        }
    }
  }

  /** The calls lead the reference to a state related to the run's, granting what the run granted. */
  ghost predicate Matches<T>(capacity: nat, events: seq<Event<T>>, calls: seq<W.Call<T>>) {
    var s := Run(New(capacity), events);
    var end := W.PerformAll(W.New(capacity), calls);
    && end.Some? && Related(s, end.value)
    && (forall ids :: Issued(calls, ids) == Used(s.shared, ids))
  }

  /** A run of the mailbox is a run of the reference exactly when it stays within the id space. */
  lemma {:induction false} RefinesExactlyWithinIds<T>(capacity: nat, events: seq<Event<T>>)
    ensures (exists calls :: Matches(capacity, events, calls)) <==> WithinIds(Run(New(capacity), events).shared)
  {
    var m := Run(New(capacity), events).shared;
    if WithinIds(m) {
      RunIsReferenceRun(capacity, events);
      forall ids
        ensures Issued(Trace(capacity, events), ids) == Used(m, ids)
      {
        TraceIssues(capacity, events, ids);
      }
      assert Matches(capacity, events, Trace(capacity, events));
    }
    if calls :| Matches(capacity, events, calls) {
      assert forall ids :: Issued(calls, ids) == Used(m, ids);
      ReferenceIssuesWithinIds(W.New(capacity), 0, calls, Reservations);
      ReferenceIssuesWithinIds(W.New(capacity), 0, calls, Leases);
      ReferenceIssuesWithinIds(W.New(capacity), 0, calls, TerminalLeases);
      assert Used(m, Reservations) <= U64_MAX;
      assert Used(m, Leases) <= U64_MAX;
      assert Used(m, TerminalLeases) <= U64_MAX;
    }
  }
}
