/** Attachment identity, the registration of the current attachment, and the owner that pairs it with
  one close-aware mailbox at a time.

  The owner's mailboxes are kept in the order they were installed: senders of a retired one may
  still use it. Each is a run of the mailbox transition system.
*/
module WorkOwner {
  import opened Words
  import opened Wrappers
  import opened Mailbox
  import WorkQueue

  datatype AttachmentId = AttachmentId(runtime: nat, epoch: nat)

  /** Work bound to the attachment it was created for. */
  datatype Work<T> = Work(attachment: AttachmentId, payload: T)

  class RuntimeIdentity {
    const runtime: nat
    var nextEpoch: Option<nat>

    ghost function View(): Identity
      reads this
    {
      Identity(runtime, nextEpoch)
    }

    constructor (runtime: nat)
      ensures View() == Identity(runtime, Some(1))
    {
      this.runtime := runtime;
      nextEpoch := Some(1);
    }

    method NextAttachment() returns (r: Option<AttachmentId>)
      modifies this
      ensures (r, View()) == old(View()).NextAttachment()
    {
      match nextEpoch {
        case None => return None;
        case Some(epoch) =>
          nextEpoch := if epoch == U64_MAX then None else Some(epoch + 1);
          return Some(AttachmentId(runtime, epoch));
      }
    }
  }

  datatype Identity = Identity(runtime: nat, nextEpoch: Option<nat>) {
    function NextAttachment(): (Option<AttachmentId>, Identity) {
      match nextEpoch
      case None => (None, this)
      case Some(epoch) =>
        (Some(AttachmentId(runtime, epoch)), this.(nextEpoch := if epoch == U64_MAX then None else Some(epoch + 1)))
    }
  }

  /** The attachments a fresh identity issues in its first `n` requests, and what is left of it. */
  function Issue(runtime: nat, n: nat): (seq<AttachmentId>, Identity) {
    if n == 0 then ([], Identity(runtime, Some(1)))
    else
      var (issued, identity) := Issue(runtime, n - 1);
      var (r, next) := identity.NextAttachment();
      (if r.Some? then issued + [r.value] else issued, next)
  }

  /** Epochs count up from one without a gap or a repetition, and requests beyond the last fail. */
  lemma {:induction false} IssueSpec(runtime: nat, n: nat)
    ensures var (issued, identity) := Issue(runtime, n);
            && |issued| == (if n <= U64_MAX then n else U64_MAX)
            && (forall k :: 0 <= k < |issued| ==> issued[k] == AttachmentId(runtime, k + 1))
            && identity == Identity(runtime, if n < U64_MAX then Some(n + 1) else None)
  {
    if n > 0 {
      IssueSpec(runtime, n - 1);
    }
  }

  datatype RegistrationState = Active | Closing

  datatype RegistrationError = NotClosing(state: RegistrationState) | ForeignRuntime | NotNewer

  datatype Resolution = Current | ClosingTask | Retired | UnregisteredAttachment | ForeignTask

  datatype Registration = Registration(current: AttachmentId, state: RegistrationState) {
    function BeginClose(): Registration {
      this.(state := Closing)
    }

    function Replace(replacement: AttachmentId): (Result<(), RegistrationError>, Registration) {
      if !state.Closing? then (Err(NotClosing(state)), this)
      else if replacement.runtime != current.runtime then (Err(ForeignRuntime), this)
      else if replacement.epoch <= current.epoch then (Err(NotNewer), this)
      else (Ok(()), Registration(replacement, RegistrationState.Active))
    }

    function Resolve(attachment: AttachmentId): Resolution {
      if attachment.runtime != current.runtime then ForeignTask
      else if attachment.epoch < current.epoch then Retired
      else if attachment != current then UnregisteredAttachment
      else if state.Active? then Current
      else ClosingTask
    }
  }

  class DrainRegistration {
    var current: AttachmentId
    var state: RegistrationState

    ghost function View(): Registration
      reads this
    {
      Registration(current, state)
    }

    constructor (attachment: AttachmentId)
      ensures View() == Registration(attachment, RegistrationState.Active)
    {
      current, state := attachment, RegistrationState.Active;
    }

    method BeginClose()
      modifies this
      ensures View() == old(View()).BeginClose()
    {
      state := Closing;
    }

    method Replace(replacement: AttachmentId) returns (r: Result<(), RegistrationError>)
      modifies this
      ensures (r, View()) == old(View()).Replace(replacement)
    {
      if state != Closing {
        return Err(NotClosing(state));
      }
      if replacement.runtime != current.runtime {
        return Err(ForeignRuntime);
      }
      if replacement.epoch <= current.epoch {
        return Err(NotNewer);
      }
      current, state := replacement, RegistrationState.Active;
      return Ok(());
    }
  }

  /** One mailbox with everything that has happened to it. */
  datatype Box<T> = Box(attachment: AttachmentId, capacity: nat, events: seq<Event<Work<T>>>) {
    function State(): State<Work<T>> {
      Run(New(capacity), events)
    }

    function Shared(): Shared<Work<T>> {
      State().shared
    }

    function After(e: Event<Work<T>>): Box<T> {
      this.(events := events + [e])
    }
  }

  /** `closing` while `begin_close` stands between its two halves. The last box is the current one. */
  datatype Owner<T> = Owner(registration: Registration, boxes: seq<Box<T>>, closing: bool)

  datatype ReplaceError = MailboxNotTerminallyClosed(state: WorkQueue.Lifecycle) | RegistrationRefused(error: RegistrationError)

  datatype Step<T> =
    | Send(box: nat, id: Id, payload: T, posting: bool)
    | Advance(box: nat, id: Id, choice: Choice)
    | Deliver(task: AttachmentId, id: Id, activity: Activity<Work<T>>)
    | RetryPost(id: Id)
    | ClaimTerminal(id: Id)
    | CloseRegistration
    | CloseMailbox(id: Id)
    | Replace(replacement: AttachmentId, capacity: nat)

  function Put<T>(o: Owner<T>, k: nat, e: Event<Work<T>>): Owner<T>
    requires k < |o.boxes|
  {
    o.(boxes := o.boxes[k := o.boxes[k].After(e)])
  }

  function Latest<T>(o: Owner<T>): Box<T>
    requires o.boxes != []
  {
    o.boxes[|o.boxes| - 1]
  }

  function NewOwner<T>(attachment: AttachmentId, capacity: nat): Owner<T> {
    Owner(Registration(attachment, RegistrationState.Active), [Box(attachment, capacity, [])], false)
  }

  /** An operation of the lent mailbox binds any payload to the mailbox's own attachment. */
  predicate Bound<T>(activity: Activity<Work<T>>, attachment: AttachmentId) {
    activity.Producing? && activity.producer.ProducerReserve? ==> activity.producer.payload.attachment == attachment
  }

  function DoReplace<T>(o: Owner<T>, replacement: AttachmentId, capacity: nat): (Result<(), ReplaceError>, Owner<T>)
    requires o.boxes != []
  {
    var before := Lifecycle(Latest(o).Shared());
    if before != WorkQueue.Closed then (Err(MailboxNotTerminallyClosed(before)), o)
    else
      var (r, registration) := o.registration.Replace(replacement);
      if r.Err? then (Err(RegistrationRefused(r.error)), o)
      else (Ok(()), o.(registration := registration, boxes := o.boxes + [Box(replacement, capacity, [])]))
  }

  function Next<T>(o: Owner<T>, s: Step<T>): Owner<T>
    requires o.boxes != []
  {
    var last := |o.boxes| - 1;
    match s
    case Send(k, id, v, posting) =>
      if k < |o.boxes| then Put(o, k, Start(id, Producing(ProducerReserve(Work(o.boxes[k].attachment, v), posting)))) else o
    case Advance(k, id, c) => if k < |o.boxes| then Put(o, k, Mailbox.Step(id, c)) else o
    case CloseMailbox(id) =>
      if o.closing && id !in Latest(o).State().acts
      then Put(Put(o, last, Start(id, Claiming(CloserBegin))), last, Mailbox.Step(id, Succeed)).(closing := false)
      else o
    case _ => if o.closing then o else NextOwned(o, s)
  }

  /** What the owner does between two of its own calls. */
  function NextOwned<T>(o: Owner<T>, s: Step<T>): Owner<T>
    requires o.boxes != []
  {
    var last := |o.boxes| - 1;
    match s
    case Deliver(task, id, activity) =>
      if o.registration.Resolve(task).Current? && Bound(activity, Latest(o).attachment) then Put(o, last, Start(id, activity)) else o
    case RetryPost(id) => if o.registration.state.Active? then Put(o, last, Start(id, Retrying(RetryReserve))) else o
    case ClaimTerminal(id) => Put(o, last, Start(id, Claiming(ClaimSealProducers)))
    case CloseRegistration => o.(registration := o.registration.BeginClose(), closing := true)
    case Replace(replacement, capacity) => DoReplace(o, replacement, capacity).1
    case _ => o
  }

  function RunOwner<T>(attachment: AttachmentId, capacity: nat, steps: seq<Step<T>>): (o: Owner<T>)
    ensures o.boxes != []
    decreases |steps|
  {
    if steps == [] then NewOwner(attachment, capacity)
    else Next(RunOwner(attachment, capacity, steps[..|steps| - 1]), steps[|steps| - 1])
  }
}
