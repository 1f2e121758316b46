/** Replacement isolation: what one attachment's mailbox and tasks can do to another's. */
module WorkOwnerTheorems {
  import opened Wrappers
  import opened Ingress
  import opened Mailbox
  import opened WorkOwner
  import MailboxInvariant
  import MailboxOwnership
  import MailboxTheorems

  /** Everything ever offered to the mailbox is bound to its attachment. */
  ghost predicate OffersBound<T>(b: Box<T>) {
    forall i :: i in b.State().offers ==> b.State().offers[i].attachment == b.attachment
  }

  ghost predicate Lined<T>(boxes: seq<Box<T>>, r: Registration) {
    && boxes != []
    && boxes[|boxes| - 1].attachment == r.current
    && (forall k :: 0 <= k < |boxes| ==> boxes[k].attachment.runtime == r.current.runtime)
    && (forall j, k :: 0 <= j < k < |boxes| ==> boxes[j].attachment.epoch < boxes[k].attachment.epoch)
  }

  ghost predicate Inv<T>(o: Owner<T>) {
    && Lined(o.boxes, o.registration)
    && (forall k :: 0 <= k < |o.boxes| ==> OffersBound(o.boxes[k]))
    && (forall k :: 0 <= k < |o.boxes| - 1 ==> o.boxes[k].Shared().terminal.Closed?)
    && (o.closing ==> o.registration.state.Closing?)
    && (o.registration.state.Closing? && !o.closing ==> !Latest(o).Shared().producers.phase.Open?)
  }

  /** One more event: gates move forward, a closed mailbox stays closed, and offers stay bound. */
  lemma EventKeeps<T>(b: Box<T>, e: Event<Work<T>>)
    requires OffersBound(b)
    requires e.Start? ==> Bound(e.activity, b.attachment)
    ensures OffersBound(b.After(e))
    ensures b.Shared().terminal.Closed? ==> b.After(e).Shared().terminal.Closed?
    ensures !b.Shared().producers.phase.Open? ==> !b.After(e).Shared().producers.phase.Open?
    ensures b.After(e).State() == Mailbox.Next(b.State(), e)
  {
    assert (b.events + [e])[..|b.events|] == b.events;
    MailboxInvariant.RunKeepsInv(b.capacity, b.events);
    MailboxTheorems.RunMovesForward(b.State(), [e]);
    assert Run(b.State(), [e]) == Mailbox.Next(Run(b.State(), [e][..0]), e);
  }

  lemma PutKeeps<T>(o: Owner<T>, k: nat, e: Event<Work<T>>)
    requires Inv(o) && k < |o.boxes|
    requires e.Start? ==> Bound(e.activity, o.boxes[k].attachment)
    ensures Inv(Put(o, k, e))
  {
    EventKeeps(o.boxes[k], e);
  }

  lemma ReplaceKeeps<T>(o: Owner<T>, replacement: AttachmentId, capacity: nat)
    requires Inv(o) && !o.closing
    ensures Inv(DoReplace(o, replacement, capacity).1)
  {
    var u := DoReplace(o, replacement, capacity).1;
    if u != o {
      assert Latest(u).State() == New(capacity);
    }
  }

  lemma CloseMailboxKeeps<T>(o: Owner<T>, id: Id)
    requires Inv(o)
    ensures Inv(WorkOwner.Next(o, CloseMailbox(id)))
  {
    var last := |o.boxes| - 1;
    var begin, step := Start(id, Claiming(CloserBegin)), Mailbox.Step(id, Succeed);
    if o.closing && id !in Latest(o).State().acts {
      PutKeeps(o, last, begin);
      var u := Put(o, last, begin);
      EventKeeps(o.boxes[last], begin);
      PutKeeps(u, last, step);
      EventKeeps(u.boxes[last], step);
    }
  }

  lemma StepKeepsInv<T>(o: Owner<T>, s: WorkOwner.Step<T>)
    requires Inv(o)
    ensures Inv(WorkOwner.Next(o, s))
  {
    var last := |o.boxes| - 1;
    match s
    case Send(k, id, v, posting) =>
      if k < |o.boxes| { PutKeeps(o, k, Start(id, Producing(ProducerReserve(Work(o.boxes[k].attachment, v), posting)))); }
    case Advance(k, id, c) => if k < |o.boxes| { PutKeeps(o, k, Mailbox.Step(id, c)); }
    case Deliver(task, id, activity) => if Bound(activity, Latest(o).attachment) { PutKeeps(o, last, Start(id, activity)); }
    case RetryPost(id) => PutKeeps(o, last, Start(id, Retrying(RetryReserve)));
    case ClaimTerminal(id) => PutKeeps(o, last, Start(id, Claiming(ClaimSealProducers)));
    case CloseRegistration =>
    case CloseMailbox(id) => CloseMailboxKeeps(o, id);
    case Replace(replacement, capacity) => if !o.closing { ReplaceKeeps(o, replacement, capacity); }
  }

  lemma {:induction false} RunKeepsInv<T>(attachment: AttachmentId, capacity: nat, steps: seq<WorkOwner.Step<T>>)
    ensures Inv(RunOwner(attachment, capacity, steps))
    decreases |steps|
  {
    if steps == [] {
      assert Latest(NewOwner<T>(attachment, capacity)).State() == New(capacity);
    } else {
      RunKeepsInv(attachment, capacity, steps[..|steps| - 1]);
      StepKeepsInv(RunOwner(attachment, capacity, steps[..|steps| - 1]), steps[|steps| - 1]);
    }
  }

  /** The registration always names the current mailbox, all attachments are of one runtime, and each
      is newer than every one before it. */
  lemma {:induction false} EpochsIncrease<T>(attachment: AttachmentId, capacity: nat, steps: seq<WorkOwner.Step<T>>)
    ensures var o := RunOwner(attachment, capacity, steps);
            && Latest(o).attachment == o.registration.current
            && (forall k :: 0 <= k < |o.boxes| ==> o.boxes[k].attachment.runtime == attachment.runtime)
            && (forall j, k :: 0 <= j < k < |o.boxes| ==> o.boxes[j].attachment.epoch < o.boxes[k].attachment.epoch)
  {
    RunKeepsInv(attachment, capacity, steps);
    assert steps[..0] == [];
    RegistrationAdvances(attachment, capacity, steps, 0);
  }

  lemma StepAdvances<T>(o: Owner<T>, s: WorkOwner.Step<T>)
    requires o.boxes != []
    ensures var before, after := o.registration.current, WorkOwner.Next(o, s).registration.current;
            before.runtime == after.runtime && before.epoch <= after.epoch
  {
  }

  /** The registration's epoch never goes back. */
  lemma {:induction false} RegistrationAdvances<T>(attachment: AttachmentId, capacity: nat, steps: seq<WorkOwner.Step<T>>, k: nat)
    requires k <= |steps|
    ensures var before, after := RunOwner(attachment, capacity, steps[..k]).registration, RunOwner(attachment, capacity, steps).registration;
            before.current.runtime == after.current.runtime && before.current.epoch <= after.current.epoch
    decreases |steps|
  {
    if k == |steps| {
      assert steps[..k] == steps;
    } else {
      var shorter := steps[..|steps| - 1];
      assert shorter[..k] == steps[..k];
      RegistrationAdvances(attachment, capacity, shorter, k);
      StepAdvances(RunOwner(attachment, capacity, shorter), steps[|steps| - 1]);
    }
  }

  /** A task of a retired attachment stays retired: delivering it starts nothing, then or ever. */
  lemma {:induction false} RetiredForever<T>(attachment: AttachmentId, capacity: nat, steps: seq<WorkOwner.Step<T>>, k: nat,
                          task: AttachmentId, id: Id, activity: Activity<Work<T>>)
    requires k <= |steps|
    requires RunOwner(attachment, capacity, steps[..k]).registration.Resolve(task).Retired?
    ensures var o := RunOwner(attachment, capacity, steps);
            o.registration.Resolve(task).Retired? && WorkOwner.Next(o, Deliver(task, id, activity)) == o
  {
    RegistrationAdvances(attachment, capacity, steps, k);
  }

  /** While the same attachment stays registered, a registration that has begun to close stays closing. */
  lemma {:induction false} ClosingLasts<T>(attachment: AttachmentId, capacity: nat, steps: seq<WorkOwner.Step<T>>, k: nat)
    requires k <= |steps|
    requires var o := RunOwner(attachment, capacity, steps[..k]);
             && o.registration.state.Closing?
             && RunOwner(attachment, capacity, steps).registration.current == o.registration.current
    ensures RunOwner(attachment, capacity, steps).registration.state.Closing?
    decreases |steps|
  {
    if k == |steps| {
      assert steps[..k] == steps;
    } else {
      var shorter := steps[..|steps| - 1];
      assert shorter[..k] == steps[..k];
      var o, p := RunOwner(attachment, capacity, shorter), RunOwner(attachment, capacity, steps);
      RegistrationAdvances(attachment, capacity, shorter, k);
      SameOrNewer(o, steps[|steps| - 1]);
      if o.registration.current == p.registration.current {
        ClosingLasts(attachment, capacity, shorter, k);
      }
    }
  }

  /** Only a replacement by a newer attachment reopens a registration. */
  lemma SameOrNewer<T>(o: Owner<T>, s: WorkOwner.Step<T>)
    requires o.boxes != []
    ensures var before, after := o.registration, WorkOwner.Next(o, s).registration;
            || (after.current == before.current && (before.state.Closing? ==> after.state.Closing?))
            || after.current.epoch > before.current.epoch
  {
  }

  /** From the beginning of a close until a successful replacement, whatever else happens, no delivered
      task and no retry starts anything in the current mailbox. */
  lemma {:induction false} ClosingStartsNothing<T>(attachment: AttachmentId, capacity: nat, steps: seq<WorkOwner.Step<T>>, k: nat,
                                task: AttachmentId, id: Id, activity: Activity<Work<T>>)
    requires k <= |steps|
    requires var o := RunOwner(attachment, capacity, steps[..k]);
             && o.registration.state.Closing?
             && RunOwner(attachment, capacity, steps).registration.current == o.registration.current
    ensures var p := RunOwner(attachment, capacity, steps);
            && RunOwner(attachment, capacity, steps + [Deliver(task, id, activity)]) == p
            && RunOwner(attachment, capacity, steps + [WorkOwner.Step.RetryPost(id)]) == p
  {
    ClosingLasts(attachment, capacity, steps, k);
    RunAppends(attachment, capacity, steps, Deliver(task, id, activity));
    RunAppends(attachment, capacity, steps, WorkOwner.Step.RetryPost(id));
  }

  lemma {:induction false} RunAppends<T>(attachment: AttachmentId, capacity: nat, steps: seq<WorkOwner.Step<T>>, s: WorkOwner.Step<T>)
    ensures RunOwner(attachment, capacity, steps + [s]) == WorkOwner.Next(RunOwner(attachment, capacity, steps), s)
  {
    assert (steps + [s])[..|steps|] == steps;
  }

  /** Every attachment but the current one resolves as retired. */
  lemma {:induction false} OnlyTheCurrentResolves<T>(attachment: AttachmentId, capacity: nat, steps: seq<WorkOwner.Step<T>>, k: nat)
    requires k < |RunOwner(attachment, capacity, steps).boxes|
    ensures var o := RunOwner(attachment, capacity, steps);
            var r := o.registration.Resolve(o.boxes[k].attachment);
            if k == |o.boxes| - 1 then r == (if o.registration.state.Active? then Current else ClosingTask) else r == Retired
  {
    RunKeepsInv(attachment, capacity, steps);
  }

  /** Every attachment there could be, ever registered or not, resolves by how it compares with the current one:
      only the current one resolves as current or closing, older ones of the runtime as retired, newer
      ones as unregistered, those of another runtime as foreign. */
  lemma {:induction false} ResolvesExactly<T>(attachment: AttachmentId, capacity: nat, steps: seq<WorkOwner.Step<T>>, task: AttachmentId)
    ensures var r := RunOwner(attachment, capacity, steps).registration;
            var resolved := r.Resolve(task);
            && (resolved == Current <==> task == r.current && r.state.Active?)
            && (resolved == ClosingTask <==> task == r.current && r.state.Closing?)
            && (resolved == Retired <==> task.runtime == attachment.runtime && task.epoch < r.current.epoch)
            && (resolved == UnregisteredAttachment <==> task.runtime == attachment.runtime && task.epoch > r.current.epoch)
            && (resolved == ForeignTask <==> task.runtime != attachment.runtime)
  {
    EpochsIncrease(attachment, capacity, steps);
  }

  lemma DeliveryStarts<T>(o: Owner<T>, task: AttachmentId, id: Id, activity: Activity<Work<T>>)
    requires Inv(o)
    ensures WorkOwner.Next(o, Deliver(task, id, activity))
         == if task == o.registration.current && o.registration.state.Active? && Bound(activity, task)
            then Put(o, |o.boxes| - 1, Start(id, activity)) else o
  {
  }

  lemma RetryStarts<T>(o: Owner<T>, id: Id)
    requires Inv(o)
    ensures WorkOwner.Next(o, WorkOwner.Step.RetryPost(id))
         == if o.registration.state.Active? then Put(o, |o.boxes| - 1, Start(id, Retrying(RetryReserve))) else o
  {
  }

  /** Delivering a task starts its operation, in the current mailbox and in no other, if and only if the task is
      of the current attachment and the registration active; a retry does while it is active. Otherwise
      nothing changes. */
  lemma {:induction false} DeliversExactly<T>(attachment: AttachmentId, capacity: nat, steps: seq<WorkOwner.Step<T>>,
                                              task: AttachmentId, id: Id, activity: Activity<Work<T>>)
    ensures var o := RunOwner(attachment, capacity, steps);
            var last, active := |o.boxes| - 1, o.registration.state.Active?;
            && WorkOwner.Next(o, Deliver(task, id, activity))
               == (if task == o.registration.current && active && Bound(activity, task) then Put(o, last, Start(id, activity)) else o)
            && WorkOwner.Next(o, WorkOwner.Step.RetryPost(id))
               == (if active then Put(o, last, Start(id, Retrying(RetryReserve))) else o)
  {
    RunKeepsInv(attachment, capacity, steps);
    DeliveryStarts(RunOwner(attachment, capacity, steps), task, id, activity);
    RetryStarts(RunOwner(attachment, capacity, steps), id);
  }

  /** A sender submits to its own mailbox, replaced or not: one enqueue of its payload, bound to that mailbox's
      attachment, starts there, and no other mailbox is touched. */
  lemma {:induction false} SendsExactly<T>(attachment: AttachmentId, capacity: nat, steps: seq<WorkOwner.Step<T>>, k: nat, id: Id, v: T, posting: bool)
    requires var o := RunOwner(attachment, capacity, steps); k < |o.boxes| && id !in o.boxes[k].State().acts
    ensures var o := RunOwner(attachment, capacity, steps);
            var p := WorkOwner.Next(o, Send(k, id, v, posting));
            var work := Work(o.boxes[k].attachment, v);
            && p.registration == o.registration && |p.boxes| == |o.boxes|
            && (forall j :: 0 <= j < |o.boxes| && j != k ==> p.boxes[j] == o.boxes[j])
            && p.boxes[k].State().acts == o.boxes[k].State().acts[id := Producing(ProducerReserve(work, posting))]
            && p.boxes[k].Shared() == o.boxes[k].Shared()
            && p.boxes[k].attachment == o.boxes[k].attachment
  {
    var b := RunOwner(attachment, capacity, steps).boxes[k];
    var e: Event<Work<T>> := Start(id, Producing(ProducerReserve(Work(b.attachment, v), posting)));
    assert (b.events + [e])[..|b.events|] == b.events;
  }

  /** A mailbox that was replaced had handed over everything it accepted, and its late senders get
      their payloads back. */
  lemma {:induction false} ReplacedMailboxIsFinished<T>(attachment: AttachmentId, capacity: nat, steps: seq<WorkOwner.Step<T>>, k: nat, id: Id, v: Work<T>, posting: bool, c: Choice)
    requires k + 1 < |RunOwner(attachment, capacity, steps).boxes|
    ensures var m := RunOwner(attachment, capacity, steps).boxes[k].Shared();
            && m.terminal.Closed? && m.queue == []
            && m.history.accepted == m.history.drained + m.history.recovered
            && Fire(m, id, Producing(ProducerReserve(v, posting)), c) == (m, EnqueueDone(RejectedClosed(v)))
  {
    RunKeepsInv(attachment, capacity, steps);
    var b := RunOwner(attachment, capacity, steps).boxes[k];
    MailboxTheorems.ClosedIsFinal(b.capacity, b.events, []);
    assert b.events + [] == b.events;
    MailboxInvariant.RunKeepsInv(b.capacity, b.events);
  }

  /** Whatever a mailbox accepted, and so whatever can be popped from it, is bound to its attachment. */
  lemma {:induction false} PayloadsAreBound<T>(attachment: AttachmentId, capacity: nat, steps: seq<WorkOwner.Step<T>>, k: nat, j: nat)
    requires k < |RunOwner(attachment, capacity, steps).boxes|
    requires j < |RunOwner(attachment, capacity, steps).boxes[k].Shared().history.accepted|
    ensures var b := RunOwner(attachment, capacity, steps).boxes[k];
            b.Shared().history.accepted[j].payload.attachment == b.attachment
  {
    RunKeepsInv(attachment, capacity, steps);
    var b := RunOwner(attachment, capacity, steps).boxes[k];
    MailboxOwnership.RunKeepsOwned(b.capacity, b.events);
    assert MailboxOwnership.ItemOwned(b.State(), b.Shared().history.accepted[j]);
    assert OffersBound(b);
  }

  /** Once the owner's close has returned, the mailbox admits no producer. */
  lemma {:induction false} CloseReachesTheMailbox<T>(attachment: AttachmentId, capacity: nat, steps: seq<WorkOwner.Step<T>>)
    ensures var o := RunOwner(attachment, capacity, steps);
            o.registration.state.Closing? && !o.closing ==> !Latest(o).Shared().producers.phase.Open?
  {
    RunKeepsInv(attachment, capacity, steps);
  }

  /** Replacement succeeds exactly from a closed mailbox under a closing registration, for a newer
      attachment of the same runtime, and starts an empty mailbox for it. */
  lemma {:induction false} ReplaceExactly<T>(attachment: AttachmentId, capacity: nat, steps: seq<WorkOwner.Step<T>>, replacement: AttachmentId, size: nat)
    ensures var o := RunOwner(attachment, capacity, steps);
            var (r, p) := DoReplace(o, replacement, size);
            && (r.Ok? <==>
                  && Latest(o).Shared().terminal.Closed? && o.registration.state.Closing?
                  && replacement.runtime == attachment.runtime && replacement.epoch > o.registration.current.epoch)
            && (r.Ok? ==>
                  && p.boxes[..|o.boxes|] == o.boxes && |p.boxes| == |o.boxes| + 1
                  && p.registration == Registration(replacement, RegistrationState.Active)
                  && Latest(p).State() == New(size))
            && (r.Err? ==> p == o)
  {
    EpochsIncrease(attachment, capacity, steps);
  }

  /** Why a replacement is refused: the mailbox is asked first, then the registration. */
  lemma {:induction false} ReplaceRefusedExactly<T>(attachment: AttachmentId, capacity: nat, steps: seq<WorkOwner.Step<T>>, replacement: AttachmentId, size: nat)
    ensures var o := RunOwner(attachment, capacity, steps);
            var m, r := Latest(o).Shared(), DoReplace(o, replacement, size).0;
            && (r == Err(MailboxNotTerminallyClosed(Lifecycle(m))) <==> !m.terminal.Closed?)
            && (r == Err(RegistrationRefused(NotClosing(RegistrationState.Active))) <==>
                  m.terminal.Closed? && o.registration.state.Active?)
            && (r == Err(RegistrationRefused(ForeignRuntime)) <==>
                  m.terminal.Closed? && o.registration.state.Closing? && replacement.runtime != attachment.runtime)
            && (r == Err(RegistrationRefused(NotNewer)) <==>
                  && m.terminal.Closed? && o.registration.state.Closing? && replacement.runtime == attachment.runtime
                  && replacement.epoch <= o.registration.current.epoch)
  {
    EpochsIncrease(attachment, capacity, steps);
  }

  lemma OwnCloseStays<T>(o: Owner<T>, id: Id)
    requires Inv(o) && o.closing && Latest(o).Shared().terminal.Closed? && id !in Latest(o).State().acts
    ensures var p := WorkOwner.Next(o, CloseMailbox(id));
            !p.closing && p.registration == o.registration && p.boxes != [] && Latest(p).Shared().terminal.Closed?
  {
    var last := |o.boxes| - 1;
    var begin, step := Start(id, Claiming(CloserBegin)), Mailbox.Step(id, Succeed);
    EventKeeps(o.boxes[last], begin);
    EventKeeps(o.boxes[last].After(begin), step);
  }

  lemma ClosedAndClosingIsReplaceable<T>(o: Owner<T>, replacement: AttachmentId, size: nat)
    requires o.boxes != [] && Latest(o).Shared().terminal.Closed? && o.registration.state.Closing?
    requires replacement.runtime == o.registration.current.runtime && replacement.epoch > o.registration.current.epoch
    ensures DoReplace(o, replacement, size).0.Ok?
  {
  }

  /** The owner's close, both halves of it, and then a replacement. */
  lemma OwnCloseThenReplace<T>(o: Owner<T>, id: Id, replacement: AttachmentId, size: nat)
    requires Inv(o) && !o.closing && Latest(o).Shared().terminal.Closed? && id !in Latest(o).State().acts
    requires replacement.runtime == o.registration.current.runtime && replacement.epoch > o.registration.current.epoch
    ensures var p := WorkOwner.Next(WorkOwner.Next(o, CloseRegistration), CloseMailbox(id));
            p.boxes != [] && DoReplace(p, replacement, size).0.Ok?
  {
    var begun := WorkOwner.Next(o, CloseRegistration);
    StepKeepsInv(o, CloseRegistration);
    OwnCloseStays(begun, id);
    ClosedAndClosingIsReplaceable(WorkOwner.Next(begun, CloseMailbox(id)), replacement, size);
  }

  /** Whoever closed the mailbox, once the owner has made its own close the mailbox can be replaced by any
      newer attachment of the runtime. */
  lemma {:induction false} OwnerCloseAdmitsReplacement<T>(attachment: AttachmentId, capacity: nat, steps: seq<WorkOwner.Step<T>>, id: Id, replacement: AttachmentId, size: nat)
    requires var o := RunOwner(attachment, capacity, steps);
             && !o.closing && Latest(o).Shared().terminal.Closed?
             && id !in Latest(o).State().acts
             && replacement.runtime == attachment.runtime && replacement.epoch > o.registration.current.epoch
    ensures DoReplace(RunOwner(attachment, capacity, steps + [CloseRegistration] + [CloseMailbox(id)]), replacement, size).0.Ok?
  {
    RunAppends(attachment, capacity, steps, CloseRegistration);
    RunAppends(attachment, capacity, steps + [CloseRegistration], CloseMailbox(id));
    EpochsIncrease(attachment, capacity, steps);
    RunKeepsInv(attachment, capacity, steps);
    OwnCloseThenReplace(RunOwner(attachment, capacity, steps), id, replacement, size);
  }

  /** The owner has one mailbox, still registered as active, and operation 1 stands at `a` in it. */
  ghost predicate At<T>(attachment: AttachmentId, capacity: nat, steps: seq<WorkOwner.Step<T>>, m: Shared<Work<T>>, a: Activity<Work<T>>) {
    var o := RunOwner(attachment, capacity, steps);
    && |o.boxes| == 1 && !o.closing
    && o.registration == Registration(attachment, RegistrationState.Active)
    && o.boxes[0].State().shared == m
    && 1 in o.boxes[0].State().acts && o.boxes[0].State().acts[1] == a
  }

  lemma Move<T>(attachment: AttachmentId, capacity: nat, steps: seq<WorkOwner.Step<T>>, m: Shared<Work<T>>, a: Activity<Work<T>>, c: Choice)
    requires At(attachment, capacity, steps, m, a)
    ensures var (n, b) := Fire(m, 1, a, c); At(attachment, capacity, steps + [Advance(0, 1, c)], n, b)
  {
    RunKeepsInv(attachment, capacity, steps);
    var o := RunOwner(attachment, capacity, steps);
    EventKeeps(o.boxes[0], Mailbox.Step(1, c));
    assert (steps + [Advance(0, 1, c)])[..|steps|] == steps;
  }

  /** The activity driven by the choices, one after another. */
  function Driven<T>(m: Shared<Work<T>>, a: Activity<Work<T>>, choices: seq<Choice>): (Shared<Work<T>>, Activity<Work<T>>)
    decreases |choices|
  {
    if choices == [] then (m, a)
    else
      var (n, b) := Fire(m, 1, a, choices[0]);
      Driven(n, b, choices[1..])
  }

  lemma {:induction false} Drive<T>(attachment: AttachmentId, capacity: nat, steps: seq<WorkOwner.Step<T>>, m: Shared<Work<T>>, a: Activity<Work<T>>, choices: seq<Choice>)
      returns (longer: seq<WorkOwner.Step<T>>)
    requires At(attachment, capacity, steps, m, a)
    ensures var (n, b) := Driven(m, a, choices); At(attachment, capacity, longer, n, b)
    decreases |choices|
  {
    longer := steps;
    if choices != [] {
      Move(attachment, capacity, steps, m, a, choices[0]);
      var (n, b) := Fire(m, 1, a, choices[0]);
      longer := Drive(attachment, capacity, steps + [Advance(0, 1, choices[0])], n, b, choices[1..]);
    }
  }

  /** The owner has one mailbox, still registered as active, in state `state`. */
  ghost predicate Stands<T>(attachment: AttachmentId, capacity: nat, steps: seq<WorkOwner.Step<T>>, state: State<Work<T>>) {
    var o := RunOwner(attachment, capacity, steps);
    && |o.boxes| == 1 && !o.closing
    && o.registration == Registration(attachment, RegistrationState.Active)
    && o.boxes[0].attachment == attachment
    && o.boxes[0].State() == state
  }

  lemma {:induction false} OneMore<T>(attachment: AttachmentId, capacity: nat, steps: seq<WorkOwner.Step<T>>, state: State<Work<T>>, s: WorkOwner.Step<T>, e: Event<Work<T>>)
    requires Stands(attachment, capacity, steps, state)
    requires var o := RunOwner(attachment, capacity, steps); WorkOwner.Next(o, s) == Put(o, 0, e)
    ensures Stands(attachment, capacity, steps + [s], Mailbox.Next(state, e))
  {
    var o := RunOwner(attachment, capacity, steps);
    assert (steps + [s])[..|steps|] == steps;
    assert (o.boxes[0].events + [e])[..|o.boxes[0].events|] == o.boxes[0].events;
  }

  /** The mailbox once a task has begun its close through the loan and the owner has started a claim. */
  function LentState<T>(capacity: nat): State<Work<T>> {
    var begun := Mailbox.Next(New<Work<T>>(capacity), Start(0, Claiming(CloserBegin)));
    Mailbox.Next(Mailbox.Next(begun, Mailbox.Step(0, Succeed)), Start(1, Claiming(ClaimSealProducers)))
  }

  lemma LentShape<T>(capacity: nat)
    ensures var s := LentState<T>(capacity);
            && s.shared == NewShared(capacity).(producers := Gate(Phase.Closing, 0))
            && 1 in s.acts && s.acts[1] == Claiming(ClaimSealProducers)
  {
    var begun := Mailbox.Next(New<Work<T>>(capacity), Start(0, Claiming(CloserBegin)));
    assert begun.acts == map[0 := Claiming(CloserBegin)];
    var closed := Mailbox.Next(begun, Mailbox.Step(0, Succeed));
    assert closed.shared == NewShared(capacity).(producers := Gate(Phase.Closing, 0)) && closed.acts.Keys == {0};
  }

  lemma {:induction false} Delivers<T>(attachment: AttachmentId, capacity: nat, steps: seq<WorkOwner.Step<T>>, state: State<Work<T>>)
    requires Stands(attachment, capacity, steps, state)
    ensures Stands(attachment, capacity, steps + [Deliver(attachment, 0, Claiming(CloserBegin))], Mailbox.Next(state, Start(0, Claiming(CloserBegin))))
  {
    OneMore(attachment, capacity, steps, state, Deliver(attachment, 0, Claiming(CloserBegin)), Start(0, Claiming(CloserBegin)));
  }

  lemma {:induction false} Advances<T>(attachment: AttachmentId, capacity: nat, steps: seq<WorkOwner.Step<T>>, state: State<Work<T>>)
    requires Stands(attachment, capacity, steps, state)
    ensures Stands(attachment, capacity, steps + [Advance(0, 0, Succeed)], Mailbox.Next(state, Mailbox.Step(0, Succeed)))
  {
    OneMore(attachment, capacity, steps, state, Advance(0, 0, Succeed), Mailbox.Step(0, Succeed));
  }

  lemma {:induction false} Claims<T>(attachment: AttachmentId, capacity: nat, steps: seq<WorkOwner.Step<T>>, state: State<Work<T>>)
    requires Stands(attachment, capacity, steps, state)
    ensures Stands(attachment, capacity, steps + [ClaimTerminal(1)], Mailbox.Next(state, Start(1, Claiming(ClaimSealProducers))))
  {
    OneMore(attachment, capacity, steps, state, ClaimTerminal(1), Start(1, Claiming(ClaimSealProducers)));
  }

  /** A task starts the close of the mailbox it was lent, and the owner claims it. */
  lemma LentClose<T>(attachment: AttachmentId, capacity: nat) returns (steps: seq<WorkOwner.Step<T>>)
    ensures At(attachment, capacity, steps, NewShared(capacity).(producers := Gate(Phase.Closing, 0)), Claiming(ClaimSealProducers))
  {
    steps := [];
    var state := New<Work<T>>(capacity);
    assert Stands<T>(attachment, capacity, steps, state);
    Delivers(attachment, capacity, steps, state);
    var begun := Mailbox.Next(state, Start(0, Claiming(CloserBegin)));
    Advances(attachment, capacity, steps + [Deliver(attachment, 0, Claiming(CloserBegin))], begun);
    Claims(attachment, capacity, steps + [Deliver(attachment, 0, Claiming(CloserBegin))] + [Advance(0, 0, Succeed)],
           Mailbox.Next(begun, Mailbox.Step(0, Succeed)));
    LentShape<T>(capacity);
    steps := steps + [Deliver(attachment, 0, Claiming(CloserBegin))] + [Advance(0, 0, Succeed)] + [ClaimTerminal(1)];
    assert Stands(attachment, capacity, steps, LentState(capacity));
  }

  lemma ClaimAndFinish<T>(capacity: nat)
    ensures var m := NewShared<Work<T>>(capacity).(producers := Gate(Phase.Closing, 0));
            var claimed := Driven(m, Claiming(ClaimSealProducers), [Succeed, Succeed, Succeed, Succeed, Succeed, Succeed]);
            && claimed.1 == Owning(1, OwnerLoop) && claimed.0.queue == []
            && Driven(claimed.0, claimed.1, [Finish, Succeed, Succeed]).0.terminal.Closed?
  {
  }

  /** A mailbox closed through the loan to a drain task, not by its owner, is finished but cannot be
      replaced until the owner makes its own close: the registration is still active. */
  lemma CloseThroughLentMailbox<T>(attachment: AttachmentId, capacity: nat, replacement: AttachmentId, size: nat)
    ensures exists steps: seq<WorkOwner.Step<T>> ::
              var o := RunOwner(attachment, capacity, steps);
              && Latest(o).Shared().terminal.Closed?
              && DoReplace(o, replacement, size).0 == Err(RegistrationRefused(NotClosing(RegistrationState.Active)))
  {
    var steps := LentClose<T>(attachment, capacity);
    var m := NewShared<Work<T>>(capacity).(producers := Gate(Phase.Closing, 0));
    ClaimAndFinish<T>(capacity);
    var claim := [Succeed, Succeed, Succeed, Succeed, Succeed, Succeed];
    steps := Drive(attachment, capacity, steps, m, Claiming(ClaimSealProducers), claim);
    var claimed := Driven(m, Claiming(ClaimSealProducers), claim);
    steps := Drive(attachment, capacity, steps, claimed.0, claimed.1, [Finish, Succeed, Succeed]);
    assert Latest(RunOwner(attachment, capacity, steps)).Shared().terminal.Closed?;
  }
}
