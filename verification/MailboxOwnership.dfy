/** Who owns a payload: its caller, the mailbox once, or whoever popped it, never two of them. */
module MailboxOwnership {
  import opened Wrappers
  import opened Mailbox
  import opened MailboxInvariant

  /** The outcome leaves the payload with the mailbox. */
  predicate Kept<T>(o: EnqueueOutcome<T>) {
    o.Accepted? || o.PostFailed?
  }

  predicate Enqueues<T>(a: Activity<T>) {
    a.Producing? || a.EnqueueDone?
  }

  /** The enqueue has handed its payload to the queue. */
  predicate Published<T>(a: Activity<T>) {
    match a
    case Producing(p) => p.ProducerRequest? || p.ProducerPost? || (p.ProducerRelease? && Kept(p.outcome))
    case EnqueueDone(o) => Kept(o)
    case _ => false
  }

  /** The payload an enqueue still owns, or has returned to its caller. */
  function Carried<T>(a: Activity<T>): Option<T> {
    match a
    case Producing(ProducerReserve(v, _)) => Some(v)
    case Producing(ProducerPush(v, _, _)) => Some(v)
    case Producing(ProducerRelease(RejectedFull(v))) => Some(v)
    case Producing(ProducerRelease(RejectedClosed(v))) => Some(v)
    case EnqueueDone(RejectedFull(v)) => Some(v)
    case EnqueueDone(RejectedClosed(v)) => Some(v)
    case _ => None
  }

  predicate PushedBy<T>(items: seq<Item<T>>, i: Id) {
    exists k :: 0 <= k < |items| && items[k].producer == i
  }

  predicate OncePerProducer<T>(items: seq<Item<T>>) {
    forall j, k :: 0 <= j < k < |items| ==> items[j].producer != items[k].producer
  }

  ghost predicate ItemOwned<T>(s: State<T>, x: Item<T>) {
    && x.producer in s.acts && Published(s.acts[x.producer])
    && x.producer in s.offers && s.offers[x.producer] == x.payload
  }

  ghost predicate ActivityOwns<T>(s: State<T>, i: Id)
    requires i in s.acts
  {
    Enqueues(s.acts[i]) ==>
      && i in s.offers
      && (Published(s.acts[i]) ==> PushedBy(s.shared.history.accepted, i))
      && (!Published(s.acts[i]) ==> Carried(s.acts[i]) == Some(s.offers[i]))
  }

  ghost predicate Owned<T>(s: State<T>) {
    var accepted := s.shared.history.accepted;
    && OncePerProducer(accepted)
    && (forall k :: 0 <= k < |accepted| ==> ItemOwned(s, accepted[k]))
    && (forall i :: i in s.acts ==> ActivityOwns(s, i))
    && (forall i :: i in s.offers ==> i in s.acts)
  }

  /** What one step does to an enqueue's hold on its payload. */
  ghost predicate HandsOver<T>(m: Shared<T>, me: Id, a: Activity<T>, n: Shared<T>, b: Activity<T>) {
    && (Enqueues(b) ==> Enqueues(a))
    && (Published(a) ==> Published(b))
    && (Enqueues(b) && !Published(b) ==> !Published(a) && Carried(b) == Carried(a))
    && (|| (n.history.accepted == m.history.accepted && (Published(b) ==> Published(a)))
        || (&& !Published(a) && Published(b)
            && Carried(a).Some? && n.history.accepted == m.history.accepted + [Item(Carried(a).value, me)]))
  }

  lemma ProducerHandsOver<T>(m: Shared<T>, me: Id, p: ProducerStep<T>, c: Choice)
    requires Ready(m, Producing(p))
    ensures HandsOver(m, me, Producing(p), FireProducer(m, me, p, c).0, FireProducer(m, me, p, c).1)
  {
    ProducerIsSafe(m, me, p, c);
  }

  lemma StepHandsOver<T>(m: Shared<T>, me: Id, a: Activity<T>, c: Choice)
    requires Ready(m, a)
    ensures HandsOver(m, me, a, Fire(m, me, a, c).0, Fire(m, me, a, c).1)
  {
    if a.Producing? {
      ProducerHandsOver(m, me, a.producer, c);
    }
  }

  lemma StepKeepsOwned<T>(s: State<T>, id: Id, c: Choice)
    requires Inv(s) && Owned(s) && id in s.acts
    ensures Owned(Next(s, Step(id, c)))
  {
    var t := Next(s, Step(id, c));
    ActivityIsReady(s, id);
    StepHandsOver(s.shared, id, s.acts[id], c);
    var before, after := s.shared.history.accepted, t.shared.history.accepted;
    assert ActivityOwns(s, id);
    assert before <= after;
    assert |after| > |before| ==> after[|before|].producer == id;
    forall i | i in t.acts
      ensures ActivityOwns(t, i)
    {
      assert ActivityOwns(s, i);
      if PushedBy(before, i) {
        var k :| 0 <= k < |before| && before[k].producer == i;
        assert after[k].producer == i;
      }
    }
  }

  lemma {:induction false} RunKeepsOwned<T>(capacity: nat, events: seq<Event<T>>)
    ensures Owned(Run(New(capacity), events))
    decreases |events|
  {
    if events != [] {
      var before := events[..|events| - 1];
      RunKeepsInv(capacity, before);
      RunKeepsOwned(capacity, before);
      var s := Run(New(capacity), before);
      match events[|events| - 1]
      case Start(id, a) =>
        var t := Next(s, Start(id, a));
        forall i | i in t.acts ensures ActivityOwns(t, i) {
          if i in s.acts { assert ActivityOwns(s, i); }
        }
      case Step(id, c) =>
        if id in s.acts {
          StepKeepsOwned(s, id, c);
        }
    }
  }
}
